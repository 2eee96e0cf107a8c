/**
 * The reconstructed-hit record (JPetHit): energy, time and their qualities, a
 * position, the three matrix signals (side A, side B, WLS layer) with a flag
 * per signal saying whether it was set, the scintillator and WLS references
 * and a reconstruction flag.
 *
 * A signal is reduced to what the hit inspects: whether it is a null object
 * and the type of the SiPM matrix it came from. The scintillator and WLS
 * references are optional IDs.
 */
module HitRecord {
  import opened Wrappers

  datatype RecoFlag = Good | Corrupted | Unknown
  datatype Side = SideA | SideB | WLS

  datatype Vec3 = Vec3(x: real, y: real, z: real)
  const Origin: Vec3 := Vec3(0.0, 0.0, 0.0)

  /** A matrix signal: whether it is the null object, and the type of its matrix ("" when no matrix is attached). */
  datatype MatrixSignal = MatrixSignal(isNull: bool, matrixType: string)

  /** A default-constructed signal: not a null object, no matrix. */
  const DefaultSignal: MatrixSignal := MatrixSignal(false, "")

  /** The signal `getSignal` returns as written: side B yields the side-A signal. */
  function SignalForSideAsWritten(side: Side, a: MatrixSignal, b: MatrixSignal, w: MatrixSignal): MatrixSignal
  {
    if side == SideA then a else if side == SideB then a else w
  }

  /** The signal of a side, as the per-side getters return it. */
  function SignalForSide(side: Side, a: MatrixSignal, b: MatrixSignal, w: MatrixSignal): (s: MatrixSignal)
    ensures side == SideA ==> s == a
    ensures side == SideB ==> s == b
    ensures side == WLS ==> s == w
  {
    match side
    case SideA => a
    case SideB => b
    case WLS => w
  }

  /** As written, asking for side B of a hit whose two signals differ gives the wrong signal. */
  lemma SideBAsWrittenIsA(a: MatrixSignal, b: MatrixSignal, w: MatrixSignal)
    ensures SignalForSideAsWritten(SideB, a, b, w) == a
    ensures a != b ==> SignalForSideAsWritten(SideB, a, b, w) != SignalForSide(SideB, a, b, w)
    ensures SignalForSideAsWritten(SideA, a, b, w) == SignalForSide(SideA, a, b, w)
    ensures SignalForSideAsWritten(WLS, a, b, w) == SignalForSide(WLS, a, b, w)
  {
  }

  /** A concrete hit that shows the discrepancy: side A from matrix "A", side B from matrix "B". */
  lemma SideBAsWrittenWitness()
    ensures var a := MatrixSignal(false, "A");
      var b := MatrixSignal(false, "B");
      SignalForSideAsWritten(SideB, a, b, DefaultSignal).matrixType == "A" &&
      SignalForSide(SideB, a, b, DefaultSignal).matrixType == "B"
  {
  }

  class Hit {
    var flag: RecoFlag
    var energy: real
    var qualityOfEnergy: real
    var time: real
    var qualityOfTime: real
    var timeDiff: real
    var qualityOfTimeDiff: real
    var pos: Vec3
    var signalA: MatrixSignal
    var signalB: MatrixSignal
    var signalWLS: MatrixSignal
    var isSignalASet: bool
    var isSignalBSet: bool
    var isSignalWLSSet: bool
    var scin: Option<int>
    var wls: Option<int>

    /** A hit with nothing set: reconstruction flag `Unknown`, all numbers zero, no signal set, no references. */
    constructor()
      ensures flag == Unknown
      ensures energy == 0.0 && qualityOfEnergy == 0.0 && time == 0.0 && qualityOfTime == 0.0
      ensures timeDiff == 0.0 && qualityOfTimeDiff == 0.0 && pos == Origin
      ensures signalA == DefaultSignal && signalB == DefaultSignal && signalWLS == DefaultSignal
      ensures !isSignalASet && !isSignalBSet && !isSignalWLSSet
      ensures scin == None && wls == None
    {
      flag := Unknown;
      energy := 0.0;
      qualityOfEnergy := 0.0;
      time := 0.0;
      qualityOfTime := 0.0;
      timeDiff := 0.0;
      qualityOfTimeDiff := 0.0;
      pos := Origin;
      signalA := DefaultSignal;
      signalB := DefaultSignal;
      signalWLS := DefaultSignal;
      isSignalASet := false;
      isSignalBSet := false;
      isSignalWLSSet := false;
      scin := None;
      wls := None;
    }

    /**
     * A hit built from all of its parts: all three signals count as set. The
     * consistency check it runs only logs, so the hit is kept even when the check fails.
     */
    constructor Full(energy: real, qualityOfEnergy: real, time: real, qualityOfTime: real, pos: Vec3,
                     signalA: MatrixSignal, signalB: MatrixSignal, signalWLS: MatrixSignal, scin: int, wls: int)
      ensures flag == Unknown
      ensures this.energy == energy && this.qualityOfEnergy == qualityOfEnergy
      ensures this.time == time && this.qualityOfTime == qualityOfTime
      ensures timeDiff == 0.0 && qualityOfTimeDiff == 0.0 && this.pos == pos
      ensures this.signalA == signalA && this.signalB == signalB && this.signalWLS == signalWLS
      ensures isSignalASet && isSignalBSet && isSignalWLSSet
      ensures this.scin == Some(scin) && this.wls == Some(wls)
    {
      flag := Unknown;
      this.energy := energy;
      this.qualityOfEnergy := qualityOfEnergy;
      this.time := time;
      this.qualityOfTime := qualityOfTime;
      timeDiff := 0.0;
      qualityOfTimeDiff := 0.0;
      this.pos := pos;
      this.signalA := signalA;
      this.signalB := signalB;
      this.signalWLS := signalWLS;
      isSignalASet := true;
      isSignalBSet := true;
      isSignalWLSSet := true;
      this.scin := Some(scin);
      this.wls := Some(wls);
    }

    /** Whether all three signals have been set. */
    predicate AllSignalsSet()
      reads this
    {
      isSignalASet && isSignalBSet && isSignalWLSSet
    }

    /**
     * The consistency check: a hit missing any signal passes; one with all
     * three fails if any signal is a null object or if signals A and B come from
     * matrices of the same type. The WLS matrix type plays no part.
     */
    predicate CheckConsistency()
      reads this
      ensures !AllSignalsSet() ==> CheckConsistency()
      ensures AllSignalsSet() ==>
        (CheckConsistency() <==>
          !signalA.isNull && !signalB.isNull && !signalWLS.isNull && signalA.matrixType != signalB.matrixType)
    {
      if !isSignalASet || !isSignalBSet || !isSignalWLSSet then true
      else if signalA.isNull || signalB.isNull || signalWLS.isNull then false
      else if signalA.matrixType == signalB.matrixType then false
      else true
    }

    /** The signal of one side of the hit, as the per-side fields hold it. */
    function GetSignal(side: Side): (s: MatrixSignal)
      reads this
      ensures side == SideA ==> s == signalA
      ensures side == SideB ==> s == signalB
      ensures side == WLS ==> s == signalWLS
    {
      SignalForSide(side, signalA, signalB, signalWLS)
    }

    method SetRecoFlag(f: RecoFlag)
      modifies this`flag
      ensures flag == f
    {
      flag := f;
    }

    method SetEnergy(e: real)
      modifies this`energy
      ensures energy == e
    {
      energy := e;
    }

    method SetQualityOfEnergy(q: real)
      modifies this`qualityOfEnergy
      ensures qualityOfEnergy == q
    {
      qualityOfEnergy := q;
    }

    method SetTime(t: real)
      modifies this`time
      ensures time == t
    {
      time := t;
    }

    method SetQualityOfTime(q: real)
      modifies this`qualityOfTime
      ensures qualityOfTime == q
    {
      qualityOfTime := q;
    }

    method SetTimeDiff(td: real)
      modifies this`timeDiff
      ensures timeDiff == td
    {
      timeDiff := td;
    }

    method SetQualityOfTimeDiff(q: real)
      modifies this`qualityOfTimeDiff
      ensures qualityOfTimeDiff == q
    {
      qualityOfTimeDiff := q;
    }

    /** Sets one coordinate; the other two keep their values. */
    method SetPosX(x: real)
      modifies this`pos
      ensures pos.x == x && pos.y == old(pos.y) && pos.z == old(pos.z)
    {
      pos := pos.(x := x);
    }

    method SetPosY(y: real)
      modifies this`pos
      ensures pos.y == y && pos.x == old(pos.x) && pos.z == old(pos.z)
    {
      pos := pos.(y := y);
    }

    method SetPosZ(z: real)
      modifies this`pos
      ensures pos.z == z && pos.x == old(pos.x) && pos.y == old(pos.y)
    {
      pos := pos.(z := z);
    }

    method SetPos(x: real, y: real, z: real)
      modifies this`pos
      ensures pos == Vec3(x, y, z)
    {
      pos := Vec3(x, y, z);
    }

    method SetScin(id: int)
      modifies this`scin
      ensures scin == Some(id)
    {
      scin := Some(id);
    }

    method SetWLS(id: int)
      modifies this`wls
      ensures wls == Some(id)
    {
      wls := Some(id);
    }

    /** Stores all three signals and marks them set; the hit's consistency is then decided by the signals alone. */
    method SetSignals(a: MatrixSignal, b: MatrixSignal, w: MatrixSignal)
      modifies this`signalA, this`signalB, this`signalWLS, this`isSignalASet, this`isSignalBSet, this`isSignalWLSSet
      ensures signalA == a && signalB == b && signalWLS == w
      ensures isSignalASet && isSignalBSet && isSignalWLSSet
      ensures CheckConsistency() <==> !a.isNull && !b.isNull && !w.isNull && a.matrixType != b.matrixType
    {
      signalA := a;
      isSignalASet := true;
      signalB := b;
      isSignalBSet := true;
      signalWLS := w;
      isSignalWLSSet := true;
    }

    /** Stores the side-A signal and marks it set; no other field changes. */
    method SetSignalA(sig: MatrixSignal)
      modifies this`signalA, this`isSignalASet
      ensures signalA == sig && isSignalASet
    {
      signalA := sig;
      isSignalASet := true;
    }

    /** Stores the side-B signal and marks it set; no other field changes. */
    method SetSignalB(sig: MatrixSignal)
      modifies this`signalB, this`isSignalBSet
      ensures signalB == sig && isSignalBSet
    {
      signalB := sig;
      isSignalBSet := true;
    }

    /**
     * Stores the WLS signal and marks it set; no other field changes. Once the
     * WLS signal is set, replacing it by one of another matrix type does not
     * change the consistency verdict.
     */
    method SetSignalWLS(sig: MatrixSignal)
      modifies this`signalWLS, this`isSignalWLSSet
      ensures signalWLS == sig && isSignalWLSSet
      ensures old(isSignalWLSSet) && sig.isNull == old(signalWLS.isNull) ==>
        CheckConsistency() == old(CheckConsistency())
    {
      signalWLS := sig;
      isSignalWLSSet := true;
    }

    /**
     * Resets the hit: numbers and position to zero, signals to default and
     * unset, references to none. The reconstruction flag is kept. A cleared hit
     * passes the consistency check.
     */
    method Clear()
      modifies this`energy, this`qualityOfEnergy, this`time, this`qualityOfTime, this`timeDiff,
        this`qualityOfTimeDiff, this`pos, this`signalA, this`signalB, this`signalWLS,
        this`isSignalASet, this`isSignalBSet, this`isSignalWLSSet, this`scin, this`wls
      ensures energy == 0.0 && qualityOfEnergy == 0.0 && time == 0.0 && qualityOfTime == 0.0
      ensures timeDiff == 0.0 && qualityOfTimeDiff == 0.0 && pos == Origin
      ensures signalA == DefaultSignal && signalB == DefaultSignal && signalWLS == DefaultSignal
      ensures !isSignalASet && !isSignalBSet && !isSignalWLSSet
      ensures scin == None && wls == None
      ensures CheckConsistency()
    {
      energy := 0.0;
      qualityOfEnergy := 0.0;
      time := 0.0;
      qualityOfTime := 0.0;
      timeDiff := 0.0;
      qualityOfTimeDiff := 0.0;
      pos := Origin;
      signalA := DefaultSignal;
      signalB := DefaultSignal;
      signalWLS := DefaultSignal;
      isSignalASet := false;
      isSignalBSet := false;
      isSignalWLSSet := false;
      scin := None;
      wls := None;
    }
  }

  /** Setting all three signals to default ones makes a hit inconsistent: A and B share the empty matrix type. */
  lemma DefaultSignalsInconsistent(h: Hit)
    requires h.AllSignalsSet()
    requires h.signalA == DefaultSignal && h.signalB == DefaultSignal
    ensures !h.CheckConsistency()
  {
  }
}
