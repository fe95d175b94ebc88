/** writeMetadata: the run parameters as the attributes of the group
    simulation_parameters under metadata_0/original, one short code per
    parameter. */
module Metadata {
  import opened Container
  import opened Layout
  import opened Setup

  datatype Algorithm = PRISM | Multislice

  /** The parameters writeMetadata reads, in the source's units (radians,
      eV, Angstrom). pixelSize0 and pixelSize1 are realspacePixelSize[0]
      and [1]. */
  datatype Meta = Meta(
    algorithm: Algorithm, filenameAtoms: string,
    interpolationFactorX: int, interpolationFactorY: int, numFP: int, numSlices: int,
    includeThermalEffects: bool, includeOccupancy: bool,
    save3DOutput: bool, save4DOutput: bool, saveDPC_CoM: bool, savePotentialSlices: bool,
    nyquistSampling: bool,
    pixelSize0: real, pixelSize1: real, potBound: real, sliceThickness: real, zStart: real,
    E0: real, alphaBeamMax: real, probeStepX: real, probeStepY: real, probeDefocus: real,
    C3: real, C5: real, probeSemiangle: real, detectorAngleStep: real,
    probeXtilt: real, probeYtilt: real,
    save2DOutput: bool, integrationAngleMin: real, integrationAngleMax: real,
    realSpaceWindow_x: bool, scanWindowXMin_r: real, scanWindowXMax_r: real,
    realSpaceWindow_y: bool, scanWindowYMin_r: real, scanWindowYMax_r: real,
    scanWindowXMin: real, scanWindowXMax: real, scanWindowYMin: real, scanWindowYMax: real,
    tileX: int, tileY: int, tileZ: int,
    cellDim0: real, cellDim1: real, cellDim2: real)

  /** One entry of the key table. */
  datatype Key =
    | AtomsFile | Alg | FactorX | FactorY | NumFP | NumSlices | Thermal | Occupancy
    | Out3D | Out4D | OutDPC | OutSlices | Nyquist
    | PixelX | PixelY | PotBound | SliceThickness | ZStart | Energy | AlphaMax
    | StepX | StepY | Defocus | Aber3 | Aber5 | Semiangle | DetectorStep | TiltX | TiltY
    | Cell | Tile | WindowX | WindowY | Window2D | WindowXr | WindowYr

  /** The keys in the order writeMetadata creates their attributes. */
  const KeyOrder: seq<Key> := [
    AtomsFile, Alg, FactorX, FactorY, NumFP, NumSlices, Thermal, Occupancy,
    Out3D, Out4D, OutDPC, OutSlices, Nyquist,
    PixelX, PixelY, PotBound, SliceThickness, ZStart, Energy, AlphaMax,
    StepX, StepY, Defocus, Aber3, Aber5, Semiangle, DetectorStep, TiltX, TiltY,
    Cell, Tile, WindowX, WindowY, WindowXr, WindowYr, Window2D]

  lemma KeyOrderComplete(k: Key)
    ensures k in KeyOrder
  {
  }

  /** The attribute name of each key. */
  function Name(k: Key): string {
    match k
    case AtomsFile => "i"       case Alg => "a"
    case FactorX => "fx"        case FactorY => "fy"
    case NumFP => "F"           case NumSlices => "ns"
    case Thermal => "te"        case Occupancy => "oc"
    case Out3D => "3D"          case Out4D => "4D"
    case OutDPC => "DPC"        case OutSlices => "ps"
    case Nyquist => "nqs"
    case PixelX => "px"         case PixelY => "py"
    case PotBound => "P"        case SliceThickness => "s"
    case ZStart => "zs"         case Energy => "E"
    case AlphaMax => "A"        case StepX => "rx"
    case StepY => "ry"          case Defocus => "df"
    case Aber3 => "C3"          case Aber5 => "C5"
    case Semiangle => "sa"      case DetectorStep => "d"
    case TiltX => "tx"          case TiltY => "ty"
    case Cell => "c"            case Tile => "t"
    case WindowX => "wx"        case WindowY => "wy"
    case Window2D => "2D"       case WindowXr => "wxr"
    case WindowYr => "wyr"
  }

  /** The key an attribute name stands for, read character by character. */
  function Decode(s: string): Option<Key> {
    if |s| == 1 then Decode1(s[0])
    else if |s| == 2 then Decode2(s[0], s[1])
    else if |s| == 3 then Decode3(s[0], s[1], s[2])
    else None
  }

  function Decode1(c: char): Option<Key> {
    match c
    case 'i' => Some(AtomsFile)      case 'a' => Some(Alg)
    case 'F' => Some(NumFP)          case 'P' => Some(PotBound)
    case 's' => Some(SliceThickness) case 'E' => Some(Energy)
    case 'A' => Some(AlphaMax)       case 'd' => Some(DetectorStep)
    case 'c' => Some(Cell)           case 't' => Some(Tile)
    case _ => None
  }

  function Decode2(c0: char, c1: char): Option<Key> {
    match c0
    case 'f' => if c1 == 'x' then Some(FactorX) else if c1 == 'y' then Some(FactorY) else None
    case 'n' => if c1 == 's' then Some(NumSlices) else None
    case 't' => if c1 == 'e' then Some(Thermal) else if c1 == 'x' then Some(TiltX) else if c1 == 'y' then Some(TiltY) else None
    case 'o' => if c1 == 'c' then Some(Occupancy) else None
    case '3' => if c1 == 'D' then Some(Out3D) else None
    case '4' => if c1 == 'D' then Some(Out4D) else None
    case '2' => if c1 == 'D' then Some(Window2D) else None
    case 'p' => if c1 == 's' then Some(OutSlices) else if c1 == 'x' then Some(PixelX) else if c1 == 'y' then Some(PixelY) else None
    case 'z' => if c1 == 's' then Some(ZStart) else None
    case 'r' => if c1 == 'x' then Some(StepX) else if c1 == 'y' then Some(StepY) else None
    case 'd' => if c1 == 'f' then Some(Defocus) else None
    case 'C' => if c1 == '3' then Some(Aber3) else if c1 == '5' then Some(Aber5) else None
    case 's' => if c1 == 'a' then Some(Semiangle) else None
    case 'w' => if c1 == 'x' then Some(WindowX) else if c1 == 'y' then Some(WindowY) else None
    case _ => None
  }

  function Decode3(c0: char, c1: char, c2: char): Option<Key> {
    if c0 == 'D' && c1 == 'P' && c2 == 'C' then Some(OutDPC)
    else if c0 == 'n' && c1 == 'q' && c2 == 's' then Some(Nyquist)
    else if c0 == 'w' && c1 == 'x' && c2 == 'r' then Some(WindowXr)
    else if c0 == 'w' && c1 == 'y' && c2 == 'r' then Some(WindowYr)
    else None
  }

  /** Every name decodes to its key. */
  lemma DecodeName(k: Key)
    ensures Decode(Name(k)) == Some(k)
  {
  }

  /** The key table has no duplicate name, so the createAttribute calls
      never collide. */
  lemma NameInjective(j: Key, k: Key)
    requires Name(j) == Name(k)
    ensures j == k
  {
    DecodeName(j);
    DecodeName(k);
  }

  /** A logical written through an int. */
  function Flag(b: bool): Value {
    IntAttr(if b then 1 else 0)
  }

  function AlgorithmCode(alg: Algorithm): string {
    if alg == Multislice then "m" else "p"
  }

  /** Whether the key is written: 2D, wxr and wyr only when their flag is
      set. */
  predicate Written(m: Meta, k: Key) {
    match k
    case Window2D => m.save2DOutput
    case WindowXr => m.realSpaceWindow_x
    case WindowYr => m.realSpaceWindow_y
    case _ => true
  }

  /** The value written under each key. Angles are written in mrad (x 1000)
      and the beam energy in keV (/ 1000); the tile factors go from ints
      into a float vector. */
  function Entry(m: Meta, k: Key): Value {
    match k
    case AtomsFile => StringAttr(m.filenameAtoms)
    case Alg => StringAttr(AlgorithmCode(m.algorithm))
    case FactorX => IntAttr(m.interpolationFactorX)
    case FactorY => IntAttr(m.interpolationFactorY)
    case NumFP => IntAttr(m.numFP)
    case NumSlices => IntAttr(m.numSlices)
    case Thermal => Flag(m.includeThermalEffects)
    case Occupancy => Flag(m.includeOccupancy)
    case Out3D => Flag(m.save3DOutput)
    case Out4D => Flag(m.save4DOutput)
    case OutDPC => Flag(m.saveDPC_CoM)
    case OutSlices => Flag(m.savePotentialSlices)
    case Nyquist => Flag(m.nyquistSampling)
    case PixelX => FloatAttr(m.pixelSize1)
    case PixelY => FloatAttr(m.pixelSize0)
    case PotBound => FloatAttr(m.potBound)
    case SliceThickness => FloatAttr(m.sliceThickness)
    case ZStart => FloatAttr(m.zStart)
    case Energy => FloatAttr(m.E0 / 1000.0)
    case AlphaMax => FloatAttr(m.alphaBeamMax * 1000.0)
    case StepX => FloatAttr(m.probeStepX)
    case StepY => FloatAttr(m.probeStepY)
    case Defocus => FloatAttr(m.probeDefocus)
    case Aber3 => FloatAttr(m.C3)
    case Aber5 => FloatAttr(m.C5)
    case Semiangle => FloatAttr(m.probeSemiangle * 1000.0)
    case DetectorStep => FloatAttr(m.detectorAngleStep * 1000.0)
    case TiltX => FloatAttr(m.probeXtilt * 1000.0)
    case TiltY => FloatAttr(m.probeYtilt * 1000.0)
    case Cell => FloatVecAttr([m.cellDim0, m.cellDim1, m.cellDim2])
    case Tile => FloatVecAttr([m.tileX as real, m.tileY as real, m.tileZ as real])
    case WindowX => FloatVecAttr([m.scanWindowXMin, m.scanWindowXMax])
    case WindowY => FloatVecAttr([m.scanWindowYMin, m.scanWindowYMax])
    case Window2D => FloatVecAttr([m.integrationAngleMin * 1000.0, m.integrationAngleMax * 1000.0])
    case WindowXr => FloatVecAttr([m.scanWindowXMin_r, m.scanWindowXMax_r])
    case WindowYr => FloatVecAttr([m.scanWindowYMin_r, m.scanWindowYMax_r])
  }

  /** The attributes after creating those of ks in order, each one only when
      it is written. */
  function Build(m: Meta, ks: seq<Key>): Attrs {
    if ks == [] then map[]
    else
      var b := Build(m, ks[..|ks| - 1]);
      var k := ks[|ks| - 1];
      if Written(m, k) then b[Name(k) := Entry(m, k)] else b
  }

  /** The attributes of simulation_parameters. */
  function MetadataAttrs(m: Meta): Attrs {
    Build(m, KeyOrder)
  }

  /** A key's name is in the fold exactly when the key is among ks and
      written, and then holds its entry. */
  lemma {:induction false} BuildLookup(m: Meta, ks: seq<Key>, k: Key)
    ensures Name(k) in Build(m, ks) <==> k in ks && Written(m, k)
    ensures Name(k) in Build(m, ks) ==> Build(m, ks)[Name(k)] == Entry(m, k)
  {
    if ks != [] {
      var init, last := ks[..|ks| - 1], ks[|ks| - 1];
      BuildLookup(m, init, k);
      assert ks == init + [last];
      if Name(k) == Name(last) {
        NameInjective(k, last);
      }
    }
  }

  /** Every name in the fold is the name of one of ks. */
  lemma {:induction false} BuildNames(m: Meta, ks: seq<Key>, s: string)
    requires s in Build(m, ks)
    ensures Decode(s).Some? && Name(Decode(s).value) == s
  {
    var init, last := ks[..|ks| - 1], ks[|ks| - 1];
    if s != Name(last) || !Written(m, last) {
      BuildNames(m, init, s);
    } else {
      DecodeName(last);
    }
  }

  /** Each key's name is an attribute exactly when the key is written, and
      holds the key's entry. */
  lemma Lookup(m: Meta, k: Key)
    ensures Name(k) in MetadataAttrs(m) <==> Written(m, k)
    ensures Written(m, k) ==> MetadataAttrs(m)[Name(k)] == Entry(m, k)
  {
    KeyOrderComplete(k);
    BuildLookup(m, KeyOrder, k);
  }

  /** The attributes are exactly the names of the written keys. */
  lemma MetadataKeys(m: Meta, s: string)
    ensures s in MetadataAttrs(m) <==> Decode(s).Some? && Name(Decode(s).value) == s && Written(m, Decode(s).value)
  {
    if s in MetadataAttrs(m) {
      BuildNames(m, KeyOrder, s);
      Lookup(m, Decode(s).value);
    } else if Decode(s).Some? && Name(Decode(s).value) == s {
      Lookup(m, Decode(s).value);
    }
  }

  /** 2D, wxr and wyr exist exactly when save2DOutput, realSpaceWindow_x
      and realSpaceWindow_y are set; the other keys always exist. */
  lemma ConditionalKeys(m: Meta)
    ensures "2D" in MetadataAttrs(m) <==> m.save2DOutput
    ensures "wxr" in MetadataAttrs(m) <==> m.realSpaceWindow_x
    ensures "wyr" in MetadataAttrs(m) <==> m.realSpaceWindow_y
    ensures forall k :: k != Window2D && k != WindowXr && k != WindowYr ==> Name(k) in MetadataAttrs(m)
  {
    Lookup(m, Window2D);
    Lookup(m, WindowXr);
    Lookup(m, WindowYr);
    forall k | k != Window2D && k != WindowXr && k != WindowYr
      ensures Name(k) in MetadataAttrs(m)
    {
      Lookup(m, k);
    }
  }

  /** The algorithm is written as "m" exactly for Multislice, else "p". */
  lemma AlgorithmKey(m: Meta)
    ensures "a" in MetadataAttrs(m) && MetadataAttrs(m)["a"].StringAttr?
    ensures MetadataAttrs(m)["a"].s == "m" <==> m.algorithm == Multislice
    ensures MetadataAttrs(m)["a"].s == "p" <==> m.algorithm != Multislice
  {
    Lookup(m, Alg);
  }

  /** The readers of one attribute: the value under the key's name when it
      is there with the expected type, else zero. */
  function ReadInt(a: Attrs, k: Key): int {
    if Name(k) in a && a[Name(k)].IntAttr? then a[Name(k)].i else 0
  }

  function ReadFloat(a: Attrs, k: Key): real {
    if Name(k) in a && a[Name(k)].FloatAttr? then a[Name(k)].x else 0.0
  }

  function ReadVector(a: Attrs, k: Key, n: nat): (v: seq<real>)
    ensures |v| == n
  {
    if Name(k) in a && a[Name(k)].FloatVecAttr? && |a[Name(k)].xs| == n then a[Name(k)].xs else seq(n, _ => 0.0)
  }

  function ReadText(a: Attrs, k: Key): string {
    if Name(k) in a && a[Name(k)].StringAttr? then a[Name(k)].s else ""
  }

  /** The parameters read back from the attributes in the source's units;
      an absent window reads as zeros and its flag as false. */
  function Recover(a: Attrs): Meta {
    var w2D, wxr, wyr := ReadVector(a, Window2D, 2), ReadVector(a, WindowXr, 2), ReadVector(a, WindowYr, 2);
    var c, t, wx, wy := ReadVector(a, Cell, 3), ReadVector(a, Tile, 3), ReadVector(a, WindowX, 2), ReadVector(a, WindowY, 2);
    Meta(
      if ReadText(a, Alg) == "m" then Multislice else PRISM, ReadText(a, AtomsFile),
      ReadInt(a, FactorX), ReadInt(a, FactorY), ReadInt(a, NumFP), ReadInt(a, NumSlices),
      ReadInt(a, Thermal) != 0, ReadInt(a, Occupancy) != 0,
      ReadInt(a, Out3D) != 0, ReadInt(a, Out4D) != 0, ReadInt(a, OutDPC) != 0, ReadInt(a, OutSlices) != 0,
      ReadInt(a, Nyquist) != 0,
      ReadFloat(a, PixelY), ReadFloat(a, PixelX), ReadFloat(a, PotBound), ReadFloat(a, SliceThickness), ReadFloat(a, ZStart),
      ReadFloat(a, Energy) * 1000.0, ReadFloat(a, AlphaMax) / 1000.0,
      ReadFloat(a, StepX), ReadFloat(a, StepY), ReadFloat(a, Defocus),
      ReadFloat(a, Aber3), ReadFloat(a, Aber5), ReadFloat(a, Semiangle) / 1000.0, ReadFloat(a, DetectorStep) / 1000.0,
      ReadFloat(a, TiltX) / 1000.0, ReadFloat(a, TiltY) / 1000.0,
      Name(Window2D) in a, w2D[0] / 1000.0, w2D[1] / 1000.0,
      Name(WindowXr) in a, wxr[0], wxr[1],
      Name(WindowYr) in a, wyr[0], wyr[1],
      wx[0], wx[1], wy[0], wy[1],
      t[0].Floor, t[1].Floor, t[2].Floor,
      c[0], c[1], c[2])
  }

  /** m with the windows that are not written cleared. */
  function Stored(m: Meta): Meta {
    m.(integrationAngleMin := if m.save2DOutput then m.integrationAngleMin else 0.0,
       integrationAngleMax := if m.save2DOutput then m.integrationAngleMax else 0.0,
       scanWindowXMin_r := if m.realSpaceWindow_x then m.scanWindowXMin_r else 0.0,
       scanWindowXMax_r := if m.realSpaceWindow_x then m.scanWindowXMax_r else 0.0,
       scanWindowYMin_r := if m.realSpaceWindow_y then m.scanWindowYMin_r else 0.0,
       scanWindowYMax_r := if m.realSpaceWindow_y then m.scanWindowYMax_r else 0.0)
  }

  /** Each reader returns the parameter as written. */
  lemma ScalarReads(m: Meta)
    ensures var a := MetadataAttrs(m);
      && ReadText(a, AtomsFile) == m.filenameAtoms && ReadText(a, Alg) == AlgorithmCode(m.algorithm)
      && ReadInt(a, FactorX) == m.interpolationFactorX && ReadInt(a, FactorY) == m.interpolationFactorY
      && ReadInt(a, NumFP) == m.numFP && ReadInt(a, NumSlices) == m.numSlices
      && (ReadInt(a, Thermal) != 0) == m.includeThermalEffects && (ReadInt(a, Occupancy) != 0) == m.includeOccupancy
      && (ReadInt(a, Out3D) != 0) == m.save3DOutput && (ReadInt(a, Out4D) != 0) == m.save4DOutput
      && (ReadInt(a, OutDPC) != 0) == m.saveDPC_CoM && (ReadInt(a, OutSlices) != 0) == m.savePotentialSlices
      && (ReadInt(a, Nyquist) != 0) == m.nyquistSampling
  {
    Lookup(m, AtomsFile); Lookup(m, Alg);
    Lookup(m, FactorX); Lookup(m, FactorY); Lookup(m, NumFP); Lookup(m, NumSlices);
    Lookup(m, Thermal); Lookup(m, Occupancy); Lookup(m, Out3D); Lookup(m, Out4D);
    Lookup(m, OutDPC); Lookup(m, OutSlices); Lookup(m, Nyquist);
  }

  lemma FloatReads(m: Meta)
    ensures var a := MetadataAttrs(m);
      && ReadFloat(a, PixelY) == m.pixelSize0 && ReadFloat(a, PixelX) == m.pixelSize1
      && ReadFloat(a, PotBound) == m.potBound && ReadFloat(a, SliceThickness) == m.sliceThickness
      && ReadFloat(a, ZStart) == m.zStart
  {
    Lookup(m, PixelX); Lookup(m, PixelY); Lookup(m, PotBound); Lookup(m, SliceThickness);
    Lookup(m, ZStart);
  }

  lemma ProbeReads(m: Meta)
    ensures var a := MetadataAttrs(m);
      && ReadFloat(a, Energy) * 1000.0 == m.E0
      && ReadFloat(a, StepX) == m.probeStepX && ReadFloat(a, StepY) == m.probeStepY
      && ReadFloat(a, Defocus) == m.probeDefocus && ReadFloat(a, Aber3) == m.C3 && ReadFloat(a, Aber5) == m.C5
  {
    Lookup(m, Energy); Lookup(m, StepX); Lookup(m, StepY);
    Lookup(m, Defocus); Lookup(m, Aber3); Lookup(m, Aber5);
  }

  /** The angles are stored in milliradians. */
  lemma AngleReads(m: Meta)
    ensures var a := MetadataAttrs(m);
      && ReadFloat(a, AlphaMax) / 1000.0 == m.alphaBeamMax
      && ReadFloat(a, Semiangle) / 1000.0 == m.probeSemiangle
      && ReadFloat(a, DetectorStep) / 1000.0 == m.detectorAngleStep
      && ReadFloat(a, TiltX) / 1000.0 == m.probeXtilt && ReadFloat(a, TiltY) / 1000.0 == m.probeYtilt
  {
    Lookup(m, AlphaMax); Lookup(m, Semiangle);
    Lookup(m, DetectorStep); Lookup(m, TiltX); Lookup(m, TiltY);
  }

  lemma VectorReads(m: Meta)
    ensures var a := MetadataAttrs(m);
      && ReadVector(a, Cell, 3) == [m.cellDim0, m.cellDim1, m.cellDim2]
      && ReadVector(a, Tile, 3) == [m.tileX as real, m.tileY as real, m.tileZ as real]
      && ReadVector(a, WindowX, 2) == [m.scanWindowXMin, m.scanWindowXMax]
      && ReadVector(a, WindowY, 2) == [m.scanWindowYMin, m.scanWindowYMax]
  {
    Lookup(m, Cell); Lookup(m, Tile); Lookup(m, WindowX); Lookup(m, WindowY);
  }

  lemma WindowReads(m: Meta)
    ensures var a := MetadataAttrs(m);
      && (Name(Window2D) in a) == m.save2DOutput
      && (m.save2DOutput ==> ReadVector(a, Window2D, 2) == [m.integrationAngleMin * 1000.0, m.integrationAngleMax * 1000.0])
      && (!m.save2DOutput ==> ReadVector(a, Window2D, 2) == [0.0, 0.0])
      && (Name(WindowXr) in a) == m.realSpaceWindow_x
      && ReadVector(a, WindowXr, 2) == (if m.realSpaceWindow_x then [m.scanWindowXMin_r, m.scanWindowXMax_r] else [0.0, 0.0])
      && (Name(WindowYr) in a) == m.realSpaceWindow_y
      && ReadVector(a, WindowYr, 2) == (if m.realSpaceWindow_y then [m.scanWindowYMin_r, m.scanWindowYMax_r] else [0.0, 0.0])
  {
    Lookup(m, Window2D); Lookup(m, WindowXr); Lookup(m, WindowYr);
  }

  /** Every parameter except the unwritten windows reads back as it was
      given, the unit conversions undone. */
  lemma MetadataRoundTrip(m: Meta)
    ensures Recover(MetadataAttrs(m)) == Stored(m)
  {
    ScalarReads(m);
    FloatReads(m);
    ProbeReads(m);
    AngleReads(m);
    VectorReads(m);
    WindowReads(m);
    assert (m.tileX as real).Floor == m.tileX && (m.tileY as real).Floor == m.tileY && (m.tileZ as real).Floor == m.tileZ;
  }

  /** Folds over the same keys of two parameter sets that write the same
      entries agree. */
  lemma {:induction false} BuildAlike(m1: Meta, m2: Meta, ks: seq<Key>)
    requires forall k :: Written(m1, k) == Written(m2, k) && (Written(m1, k) ==> Entry(m1, k) == Entry(m2, k))
    ensures Build(m1, ks) == Build(m2, ks)
  {
    if ks != [] {
      BuildAlike(m1, m2, ks[..|ks| - 1]);
    }
  }

  /** Clearing the unwritten windows changes nothing that is written. */
  lemma StoredWritesAlike(m: Meta)
    ensures MetadataAttrs(Stored(m)) == MetadataAttrs(m)
    ensures Stored(Stored(m)) == Stored(m)
  {
    BuildAlike(Stored(m), m, KeyOrder);
  }

  const SimParams: Path := ["4DSTEM_simulation", "metadata", "metadata_0", "original", "simulation_parameters"]

  /** writeMetadata: create simulation_parameters under original with every
      attribute. It fails if original is not a group or
      simulation_parameters already exists. */
  method WriteMetadata(file: H5File, m: Meta) returns (ok: bool)
    requires file.Valid()
    modifies file
    ensures file.Valid()
    ensures ok == CanCreate(old(file.nodes), Original, "simulation_parameters")
    ensures file.nodes == if ok then old(file.nodes)[SimParams := Group(MetadataAttrs(m))] else old(file.nodes)
  {
    assert Original + ["simulation_parameters"] == SimParams;
    ok := file.CreateGroup(Original, "simulation_parameters", MetadataAttrs(m));
  }
}
