/** The disulfide-bridge detector of puentes_disulfuro.py: candidate
    sulfur pairs, the distance and dihedral gates, the confidence filter,
    the CSV report and the rule that only more than one bridge is reported. */
module Disulfide {
  import opened Results
  import opened Seqs
  import opened Text
  import opened Itertools

  datatype Point = Point(x: real, y: real, z: real)

  /** One atom as the structure parser yields it, together with what the
      detector reads through its parent residue and chain. */
  datatype Atom = Atom(
    name: string,       // atom name; "SG" is the cysteine sulfur
    resName: string,    // residue type of the parent residue, never consulted
    chain: string,      // id of the parent residue's chain
    resSeq: int,        // sequence number of the parent residue
    coord: Point,
    bfactor: real,      // the B-factor column: a B-factor, or pLDDT for AlphaFold models
    cb: Option<Point>)  // the parent residue's "CB" atom, None when it has none

  /** A bridge is the pair of its two sulfur atoms, in enumeration order. */
  type Bridge = (Atom, Atom)

  /** Signed dihedral angle, in degrees, of four points (a floating-point
      library routine; the detector receives it as a parameter). */
  type Dihedral = (Point, Point, Point, Point) -> real

  function Abs(r: real): real
  {
    if r < 0.0 then -r else r
  }

  function SqDist(p: Point, q: Point): real
  {
    (p.x - q.x) * (p.x - q.x) + (p.y - q.y) * (p.y - q.y) + (p.z - q.z) * (p.z - q.z)
  }

  /** The distance gate 1.5 <= d <= 2.5, stated on the squared distance. */
  predicate WithinBondLength(a: Atom, b: Atom)
  {
    2.25 <= SqDist(a.coord, b.coord) <= 6.25
  }

  /** The gate on squares accepts exactly the pairs whose distance d (the
      non-negative root of the squared distance) lies in [1.5, 2.5]. */
  lemma BondLengthOnSquares(d: real, a: Atom, b: Atom)
    requires 0.0 <= d && d * d == SqDist(a.coord, b.coord)
    ensures (1.5 <= d <= 2.5) <==> WithinBondLength(a, b)
  {
    if d < 1.5 {
      assert d * d <= d * 1.5 < 2.25;
    } else if d > 2.5 {
      assert d * d >= d * 2.5 > 6.25;
    } else {
      assert 2.25 <= 1.5 * d <= d * d <= 2.5 * d <= 6.25;
    }
  }

  /** How a candidate pair fares in the geometric test. */
  datatype Verdict = Accepted | TooFarOrTooClose | MissingCB | BadDihedral

  function Classify(a1: Atom, a2: Atom, dihedral: Dihedral): Verdict
  {
    if !WithinBondLength(a1, a2) then TooFarOrTooClose
    else if a1.cb.None? || a2.cb.None? then MissingCB
    else if 84.0 <= Abs(dihedral(a1.cb.value, a1.coord, a2.coord, a2.cb.value)) <= 96.0 then Accepted
    else BadDihedral
  }

  predicate IsSulfur(a: Atom)
  {
    a.name == "SG"
  }

  /** The candidate atoms: every atom named "SG", in structure order,
      whatever its residue type. */
  function SulfurAtoms(atoms: seq<Atom>): seq<Atom>
  {
    Filter(IsSulfur, atoms)
  }

  function IsBridge(dihedral: Dihedral): Bridge -> bool
  {
    (p: Bridge) => Classify(p.0, p.1, dihedral) == Accepted
  }

  /** The pairs of candidate atoms that pass both geometric gates, in
      enumeration order. */
  function DetectedBridges(atoms: seq<Atom>, dihedral: Dihedral): seq<Bridge>
  {
    Filter(IsBridge(dihedral), Combinations(SulfurAtoms(atoms)))
  }

  /** `potenciales_disulfuro`: walks every pair of sulfur atoms and keeps
      those within bonding distance whose CB-SG-SG-CB dihedral is near 90
      degrees; a pair whose residues lack a CB is skipped. */
  method PotentialBridges(atoms: seq<Atom>, dihedral: Dihedral) returns (bridges: seq<Bridge>)
    ensures bridges == DetectedBridges(atoms, dihedral)
  {
    var cys := SulfurAtoms(atoms);
    var pairs := Combinations(cys);
    bridges := [];
    for k := 0 to |pairs|
      invariant bridges == Filter(IsBridge(dihedral), pairs[..k])
    {
      FilterSnoc(IsBridge(dihedral), pairs, k);
      var atom1, atom2 := pairs[k].0, pairs[k].1;
      var bridge := true;
      var sqDistance := SqDist(atom1.coord, atom2.coord);
      if 2.25 <= sqDistance <= 6.25 {
        if atom1.cb.None? || atom2.cb.None? {
          continue;
        }
        var angle := Abs(dihedral(atom1.cb.value, atom1.coord, atom2.coord, atom2.cb.value));
        if 84.0 <= angle <= 96.0 {
          bridge := true;
        } else {
          bridge := false;
        }
      } else {
        bridge := false;
      }
      if bridge {
        bridges := bridges + [(atom1, atom2)];
      }
    }
    assert pairs[..|pairs|] == pairs;
  }

  /** The candidates are exactly the atoms named "SG", in structure order. */
  lemma SulfurAtomsSelected(atoms: seq<Atom>)
    ensures forall a :: a in SulfurAtoms(atoms) <==> a in atoms && a.name == "SG"
    ensures IsSubsequence(SulfurAtoms(atoms), atoms)
  {
    FilterMembers(IsSulfur, atoms);
    FilterIsSubsequence(IsSulfur, atoms);
  }

  /** A pair is detected exactly when its first sulfur atom precedes its
      second among the candidates and it passes both gates: distance in
      [1.5, 2.5], both CB atoms present, |dihedral| in [84, 96]. */
  lemma DetectedMembers(atoms: seq<Atom>, dihedral: Dihedral, b: Bridge)
    ensures b in DetectedBridges(atoms, dihedral) <==>
      (exists i, j :: 0 <= i < j < |SulfurAtoms(atoms)| && SulfurAtoms(atoms)[i] == b.0 && SulfurAtoms(atoms)[j] == b.1)
      && WithinBondLength(b.0, b.1) && b.0.cb.Some? && b.1.cb.Some?
      && 84.0 <= Abs(dihedral(b.0.cb.value, b.0.coord, b.1.coord, b.1.cb.value)) <= 96.0
  {
    FilterMembers(IsBridge(dihedral), Combinations(SulfurAtoms(atoms)));
    CombinationsMembers(SulfurAtoms(atoms), b.0, b.1);
  }

  /** Detected bridges come in enumeration order, are pairs of "SG" atoms,
      and number at most n(n-1)/2 for n candidate atoms. */
  lemma DetectedShape(atoms: seq<Atom>, dihedral: Dihedral)
    ensures IsSubsequence(DetectedBridges(atoms, dihedral), Combinations(SulfurAtoms(atoms)))
    ensures 2 * |DetectedBridges(atoms, dihedral)| <= |SulfurAtoms(atoms)| * (|SulfurAtoms(atoms)| - 1)
    ensures forall b :: b in DetectedBridges(atoms, dihedral) ==> b.0.name == "SG" && b.1.name == "SG"
  {
    var cys := SulfurAtoms(atoms);
    FilterIsSubsequence(IsBridge(dihedral), Combinations(cys));
    CombinationsLength(cys);
    SulfurAtomsSelected(atoms);
    forall b | b in DetectedBridges(atoms, dihedral)
      ensures b.0.name == "SG" && b.1.name == "SG"
    {
      DetectedMembers(atoms, dihedral, b);
      var i, j :| 0 <= i < j < |cys| && cys[i] == b.0 && cys[j] == b.1;
      assert cys[i] in cys && cys[j] in cys;
    }
  }

  /** The distance gate does not depend on the order of the two atoms. */
  lemma DistanceSymmetric(a: Atom, b: Atom, dihedral: Dihedral)
    ensures SqDist(a.coord, b.coord) == SqDist(b.coord, a.coord)
    ensures Classify(a, b, dihedral).TooFarOrTooClose? == Classify(b, a, dihedral).TooFarOrTooClose?
  {
  }

  /** A pair whose residues lack a CB atom is left out, and the pairs after
      it are judged as if it were not there. */
  lemma MissingCBSkipped(dihedral: Dihedral, before: seq<Bridge>, p: Bridge, after: seq<Bridge>)
    requires p.0.cb.None? || p.1.cb.None?
    ensures Filter(IsBridge(dihedral), before + [p] + after)
         == Filter(IsBridge(dihedral), before) + Filter(IsBridge(dihedral), after)
  {
    FilterAppend(IsBridge(dihedral), before + [p], after);
    FilterAppend(IsBridge(dihedral), before, [p]);
  }

  /** Fewer than two sulfur atoms give no candidate pair, hence no bridge. */
  lemma FewSulfursNoBridges(atoms: seq<Atom>, dihedral: Dihedral)
    requires |SulfurAtoms(atoms)| < 2
    ensures DetectedBridges(atoms, dihedral) == []
  {
    CombinationsLength(SulfurAtoms(atoms));
  }

  /** Whether both atoms of a bridge are trustworthy: for an AlphaFold
      model the B-factor column holds pLDDT and must be at least 40 on both
      atoms; for an experimental structure the B-factor must be at most 35. */
  predicate Confident(b: Bridge, alphaFold: bool)
  {
    if alphaFold then !(b.0.bfactor < 40.0 || b.1.bfactor < 40.0)
    else !(b.0.bfactor > 35.0 || b.1.bfactor > 35.0)
  }

  function IsConfident(alphaFold: bool): Bridge -> bool
  {
    (b: Bridge) => Confident(b, alphaFold)
  }

  function ConfidentBridges(bridges: seq<Bridge>, alphaFold: bool): seq<Bridge>
  {
    Filter(IsConfident(alphaFold), bridges)
  }

  /** `descartar`: drops the bridges with an untrustworthy atom. */
  method Discard(alphaFold: bool, bridges: seq<Bridge>) returns (kept: seq<Bridge>)
    ensures kept == ConfidentBridges(bridges, alphaFold)
  {
    kept := [];
    for k := 0 to |bridges|
      invariant kept == Filter(IsConfident(alphaFold), bridges[..k])
    {
      FilterSnoc(IsConfident(alphaFold), bridges, k);
      var bridge := bridges[k];
      if alphaFold {
        var pLDDT1, pLDDT2 := bridge.0.bfactor, bridge.1.bfactor;
        if pLDDT1 < 40.0 || pLDDT2 < 40.0 {
          continue;
        } else {
          kept := kept + [bridge];
        }
      } else {
        var b1, b2 := bridge.0.bfactor, bridge.1.bfactor;
        if b1 > 35.0 || b2 > 35.0 {
          continue;
        } else {
          kept := kept + [bridge];
        }
      }
    }
    assert bridges[..|bridges|] == bridges;
  }

  /** The confidence filter keeps an order-preserving subsequence, and a
      second pass with the same provenance removes nothing more. */
  lemma ConfidenceFilterShape(bridges: seq<Bridge>, alphaFold: bool)
    ensures IsSubsequence(ConfidentBridges(bridges, alphaFold), bridges)
    ensures ConfidentBridges(ConfidentBridges(bridges, alphaFold), alphaFold) == ConfidentBridges(bridges, alphaFold)
  {
    FilterIsSubsequence(IsConfident(alphaFold), bridges);
    FilterIdempotent(IsConfident(alphaFold), bridges);
  }

  /** AlphaFold models: a bridge is kept exactly when both pLDDT values are
      at least 40 (40 itself is kept), whatever else is in the list. */
  lemma AlphaFoldThreshold(before: seq<Bridge>, b: Bridge)
    ensures ConfidentBridges(before + [b], true)
         == ConfidentBridges(before, true) + (if b.0.bfactor >= 40.0 && b.1.bfactor >= 40.0 then [b] else [])
  {
    FilterAppend(IsConfident(true), before, [b]);
    assert [b][1..] == [];
  }

  /** Experimental structures: a bridge is kept exactly when both B-factors
      are at most 35 (35 itself is kept), whatever else is in the list. */
  lemma ExperimentalThreshold(before: seq<Bridge>, b: Bridge)
    ensures ConfidentBridges(before + [b], false)
         == ConfidentBridges(before, false) + (if b.0.bfactor <= 35.0 && b.1.bfactor <= 35.0 then [b] else [])
  {
    FilterAppend(IsConfident(false), before, [b]);
    assert [b][1..] == [];
  }

  const Header: string := "cadena1,res1,cadena2,res2"

  /** One CSV row: chain and residue number of each atom's residue. */
  function ReportRow(b: Bridge): string
  {
    Join([b.0.chain, IntToString(b.0.resSeq), b.1.chain, IntToString(b.1.resSeq)], ',')
  }

  /** The row as the f-string `{c1},{r1},{c2},{r2}` writes it. */
  lemma ReportRowText(b: Bridge)
    ensures ReportRow(b) == b.0.chain + "," + IntToString(b.0.resSeq) + "," + b.1.chain + "," + IntToString(b.1.resSeq)
  {
    var fields := [b.0.chain, IntToString(b.0.resSeq), b.1.chain, IntToString(b.1.resSeq)];
    assert fields[1..][1..][1..] == [fields[3]];
    assert fields[1..][1..] == [fields[2], fields[3]];
    assert fields[1..] == [fields[1], fields[2], fields[3]];
    assert Join([fields[2], fields[3]], ',') == fields[2] + "," + fields[3];
    assert Join([fields[1], fields[2], fields[3]], ',') == fields[1] + "," + fields[2] + "," + fields[3];
  }

  /** The lines of the CSV report, each written followed by a newline. */
  function ReportLines(bridges: seq<Bridge>): (r: seq<string>)
    ensures |r| == |bridges| + 1 && r[0] == Header
    ensures forall i :: 0 <= i < |bridges| ==> r[i + 1] == ReportRow(bridges[i])
  {
    if bridges == [] then [Header]
    else ReportLines(bridges[..|bridges| - 1]) + [ReportRow(bridges[|bridges| - 1])]
  }

  function ReportFileName(archivo: string): string
  {
    "Puentes_disulfuro_" + DropLastFour(archivo) + ".csv"
  }

  /** `crear_salida`: the CSV file's name and its lines. */
  method CreateOutput(archivo: string, bridges: seq<Bridge>) returns (fileName: string, lines: seq<string>)
    ensures fileName == ReportFileName(archivo)
    ensures lines == ReportLines(bridges)
  {
    fileName := "Puentes_disulfuro_" + DropLastFour(archivo) + ".csv";
    lines := [Header];
    for k := 0 to |bridges|
      invariant lines == ReportLines(bridges[..k])
    {
      ReportRowText(bridges[k]);
      var a1, a2 := bridges[k].0, bridges[k].1;
      var c1, c2 := a1.chain, a2.chain;
      lines := lines + [c1 + "," + IntToString(a1.resSeq) + "," + c2 + "," + IntToString(a2.resSeq)];
      assert bridges[..k + 1][..k] == bridges[..k];
    }
    assert bridges[..|bridges|] == bridges;
  }

  /** A report row splits back into its four fields, provided the chain
      ids contain no comma. */
  lemma ReportRowFields(b: Bridge)
    requires ',' !in b.0.chain && ',' !in b.1.chain
    ensures Split(ReportRow(b), ',') == [b.0.chain, IntToString(b.0.resSeq), b.1.chain, IntToString(b.1.resSeq)]
  {
    var fields := [b.0.chain, IntToString(b.0.resSeq), b.1.chain, IntToString(b.1.resSeq)];
    assert ',' !in IntToString(b.0.resSeq) && ',' !in IntToString(b.1.resSeq);
    SplitJoin(fields, ',');
  }

  /** The result of one run of the script. */
  datatype Outcome = OpenFailed | NoReport | Report(fileName: string, lines: seq<string>)

  /** `main`, from the structure the parser produced (None when it could
      not be opened) and the AlphaFold flag read from the file. */
  method Run(archivo: string, structure: Option<seq<Atom>>, dihedral: Dihedral, alphaFold: bool)
    returns (outcome: Outcome)
    ensures structure.None? <==> outcome.OpenFailed?
    ensures structure.Some? ==>
      var kept := ConfidentBridges(DetectedBridges(structure.value, dihedral), alphaFold);
      (outcome.Report? <==> |kept| > 1)
      && (outcome.Report? ==> outcome == Report(ReportFileName(archivo), ReportLines(kept)))
  {
    if structure.Some? {
      var disulfuros := PotentialBridges(structure.value, dihedral);
      var filtrados := Discard(alphaFold, disulfuros);
      if |filtrados| > 1 {
        var fileName, lines := CreateOutput(archivo, filtrados);
        outcome := Report(fileName, lines);
      } else {
        outcome := NoReport;
      }
    } else {
      outcome := OpenFailed;
    }
  }
}
