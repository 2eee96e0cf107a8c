/**
 * Helpers of the GATE Monte-Carlo parser (JPetGateParserTools): the mapping
 * from GATE's sector/crystal numbering to the scintillator IDs of the modular
 * J-PET, the electronics time-window test, hit reconstruction and the energy
 * acceptance gate.
 *
 * Times, energies and positions are reals; the double/float rounding of the
 * original is not modelled.
 */
module GateTools {

  // ---------------------------------------------------------------------------
  // Scintillator mapping
  // ---------------------------------------------------------------------------

  /** Number of sectors (modules) and crystals (strips) per sector of the modular detector. */
  const Sectors: int := 24
  const CrystalsPerSector: int := 13

  /** Scintillator ID of the strip `crystalID` in module `rSectorID`, as numbered by GATE. */
  function MapScintillator(rSectorID: int, crystalID: int): int
  {
    if rSectorID < 6 then 266 + crystalID - 13 * rSectorID
    else 266 + crystalID - 13 * rSectorID + 312
  }

  /** The values fixed by the repository's own unit test of the mapping. */
  lemma MapScintillatorVectors()
    ensures MapScintillator(0, 0) == 266
    ensures MapScintillator(5, 12) == 213
    ensures MapScintillator(6, 1) == 501
    ensures MapScintillator(7, 0) == 487
  {
  }

  /** Within one sector, consecutive crystals have consecutive scintillator IDs. */
  lemma MapScintillatorConsecutive(s: int, c: int)
    ensures MapScintillator(s, c + 1) == MapScintillator(s, c) + 1
  {
  }

  predicate OnGrid(s: int, c: int)
  {
    0 <= s < Sectors && 0 <= c < CrystalsPerSector
  }

  /** First and one-past-last scintillator ID the detector grid is mapped to. */
  const FirstScin: int := 201
  const EndScin: int := 513

  /**
   * The sector and crystal whose strip carries a given scintillator ID: the
   * inverse of the mapping on the 24 x 13 grid.
   */
  function SectorCrystalOf(id: int): (sc: (int, int))
    requires FirstScin <= id < EndScin
    ensures OnGrid(sc.0, sc.1)
  {
    if id < 279 then
      var s := (278 - id) / 13;
      (s, id - 266 + 13 * s)
    else
      var s := 6 + (512 - id) / 13;
      (s, id - 578 + 13 * s)
  }

  /** Every strip of the grid gets an ID in [201, 513), and the ID determines the strip. */
  lemma MapScintillatorOnGrid(s: int, c: int)
    requires OnGrid(s, c)
    ensures FirstScin <= MapScintillator(s, c) < EndScin
    ensures SectorCrystalOf(MapScintillator(s, c)) == (s, c)
  {
    var id := MapScintillator(s, c);
    if s < 6 {
      assert 278 - id == 13 * s + (12 - c);
      assert (278 - id) / 13 == s;
    } else {
      assert 512 - id == 13 * (s - 6) + (12 - c);
      assert (512 - id) / 13 == s - 6;
    }
  }

  /** Every ID in [201, 513) is the ID of exactly the strip `SectorCrystalOf` names. */
  lemma SectorCrystalOfMaps(id: int)
    requires FirstScin <= id < EndScin
    ensures var sc := SectorCrystalOf(id); MapScintillator(sc.0, sc.1) == id
  {
  }

  /** Two strips of the grid never share a scintillator ID. */
  lemma MapScintillatorInjective(s1: int, c1: int, s2: int, c2: int)
    requires OnGrid(s1, c1) && OnGrid(s2, c2)
    requires MapScintillator(s1, c1) == MapScintillator(s2, c2)
    ensures s1 == s2 && c1 == c2
  {
    MapScintillatorOnGrid(s1, c1);
    MapScintillatorOnGrid(s2, c2);
  }

  // ---------------------------------------------------------------------------
  // Electronics time windows
  // ---------------------------------------------------------------------------

  /** Whether a time (in ps) still falls into window number `n` of clock windows of length `w`. */
  predicate InWindow(t: real, n: nat, w: real)
  {
    t - (n as real) * w < w
  }

  /**
   * The window number assigned to a time: the quotient truncated to an unsigned
   * integer. Negative times, for which the conversion of the original is not
   * defined, are given window 0.
   */
  function WindowIndex(t: real, w: real): (n: nat)
    requires w > 0.0
    ensures t >= 0.0 ==> (n as real) * w <= t < (n as real) * w + w
  {
    if t < 0.0 then 0
    else
      var f := (t / w).Floor;
      FloorBounds(t / w);
      ScaledBounds(t, w, f as real);
      f
  }

  lemma FloorBounds(q: real)
    requires q >= 0.0
    ensures 0 <= q.Floor && q.Floor as real <= q < q.Floor as real + 1.0
  {
  }

  /** Multiplying the bounds of `t / w` back by the window length. */
  lemma ScaledBounds(t: real, w: real, f: real)
    requires w > 0.0 && f <= t / w < f + 1.0
    ensures f * w <= t < f * w + w
  {
    var q := t / w;
    DivMul(t, w);
    ScaleLe(f, q, w);
    ScaleLt(q, f + 1.0, w);
    Distrib(f, w);
    calc {
      t;
    ==
      q * w;
    <
      (f + 1.0) * w;
    ==
      f * w + w;
    }
  }

  lemma DivMul(t: real, w: real)
    requires w > 0.0
    ensures (t / w) * w == t
  {
  }

  lemma ScaleLe(a: real, b: real, w: real)
    requires w > 0.0 && a <= b
    ensures a * w <= b * w
  {
  }

  lemma ScaleLt(a: real, b: real, w: real)
    requires w > 0.0 && a < b
    ensures a * w < b * w
  {
  }

  lemma Distrib(f: real, w: real)
    ensures (f + 1.0) * w == f * w + w
  {
  }

  /** A time always falls into the window its own window number names. */
  lemma InOwnWindow(t: real, w: real)
    requires w > 0.0
    ensures InWindow(t, WindowIndex(t, w), w)
  {
  }

  /** The time measured from the start of its own window lies in [0, w). */
  lemma OffsetInWindow(t: real, w: real)
    requires w > 0.0 && t >= 0.0
    ensures var n := WindowIndex(t, w); 0.0 <= t - (n as real) * w < w
  {
  }

  /** For a non-negative time, the test for window `n` passes iff the time's own window is `n` or earlier. */
  lemma InWindowIff(t: real, n: nat, w: real)
    requires w > 0.0 && t >= 0.0
    ensures InWindow(t, n, w) <==> WindowIndex(t, w) <= n
  {
    var k := WindowIndex(t, w);
    if k <= n {
      assert (k as real) * w <= (n as real) * w by { ScaleLe(k as real, n as real, w); }
    } else {
      ScaleLe(n as real + 1.0, k as real, w);
      assert (n as real + 1.0) * w == (n as real) * w + w;
      assert (n as real) * w + w <= (k as real) * w;
    }
  }

  /** A time earlier than the start of window `n` passes the test for window `n`. */
  lemma EarlierInWindow(t: real, n: nat, w: real)
    requires w > 0.0 && t < (n as real) * w
    ensures InWindow(t, n, w)
  {
  }

  /** The end of window `n` already belongs to window `n + 1`. */
  lemma WindowEndExcluded(n: nat, w: real)
    ensures !InWindow((n as real + 1.0) * w, n, w)
    ensures w > 0.0 ==> InWindow((n as real + 1.0) * w, n + 1, w)
  {
  }

  // ---------------------------------------------------------------------------
  // Hits
  // ---------------------------------------------------------------------------

  /** A scintillator of the parameter bank: its ID and the centre of its face. */
  datatype Scin = Scin(id: int, centerX: real, centerY: real)

  /** A simulated hit as GATE records it, with its scintillator resolved. */
  datatype RawMCHit = RawMCHit(scin: Scin, time: real, energy: real, posX: real, posY: real, posZ: real)

  /** A hit after detector-response smearing. */
  datatype RecoHit = RecoHit(time: real, energy: real, posX: real, posY: real, posZ: real)

  /**
   * The experimental parametrizer, reduced to its two smearing functions: each
   * takes the scintillator ID, the position along the strip, the energy and the time.
   */
  datatype Parametrizer = Parametrizer(zSmearing: (int, real, real, real) -> real,
                                       timeSmearing: (int, real, real, real) -> real)

  /** The reconstructed hit of a simulated one. */
  function ReconstructHit(raw: RawMCHit, p: Parametrizer): RecoHit
  {
    RecoHit(p.timeSmearing(raw.scin.id, raw.posZ, raw.energy, raw.time),
            raw.energy,
            raw.scin.centerX,
            raw.scin.centerY,
            p.zSmearing(raw.scin.id, raw.posZ, raw.energy, raw.time))
  }

  /** Whether a reconstructed hit passes the energy gate. */
  predicate IsHitReconstructed(h: RecoHit, threshold: real)
  {
    h.energy >= threshold
  }

  /**
   * Reconstruction keeps the energy and puts the hit at the scintillator centre:
   * the simulated X/Y are discarded, and only Z and time come from the parametrizer.
   */
  lemma ReconstructHitFields(raw: RawMCHit, p: Parametrizer)
    ensures var r := ReconstructHit(raw, p);
      r.energy == raw.energy && r.posX == raw.scin.centerX && r.posY == raw.scin.centerY
  {
  }

  /** Two simulated hits that differ only in X/Y reconstruct to the same hit. */
  lemma ReconstructIgnoresRawXY(a: RawMCHit, b: RawMCHit, p: Parametrizer)
    requires a.scin == b.scin && a.time == b.time && a.energy == b.energy && a.posZ == b.posZ
    ensures ReconstructHit(a, p) == ReconstructHit(b, p)
  {
  }

  /**
   * The energy gate on the reconstructed hit is a gate on the simulated energy:
   * smearing never changes whether a hit is accepted, and the threshold itself is accepted.
   */
  lemma AcceptedIff(raw: RawMCHit, p: Parametrizer, threshold: real)
    ensures IsHitReconstructed(ReconstructHit(raw, p), threshold) <==> raw.energy >= threshold
    ensures raw.energy == threshold ==> IsHitReconstructed(ReconstructHit(raw, p), threshold)
  {
  }
}
