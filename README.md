# Disulfide bridge detection and its PyMOL script, in Dafny

This project models the two scripts of a small disulfide-bridge tool.

`puentes_disulfuro.py` does four things:
- It takes every sulfur atom (atom name `SG`) of a protein structure.
- It walks every pair of them in `itertools.combinations` order and keeps the pairs that pass two gates:
  - an S–S distance in [1.5, 2.5];
  - a CB–SG–SG–CB dihedral whose absolute value lies in [84, 96] degrees.
- It drops the bridges with an untrustworthy atom:
  - for an AlphaFold model, pLDDT below 40;
  - otherwise, a B-factor above 35.
- It writes a CSV report (`cadena1,res1,cadena2,res2` and one row per bridge), but only when more than one bridge survives.

`generar_pymol.py` reads that CSV back and writes a PyMOL script:
- a fixed preamble;
- four lines per data row, numbered from 1;
- then `zoom`.

Every loop the model covers is a Dafny `method` whose loop invariants tie it to a specification function. The list comprehension of `SulfurAtoms` (puentes_disulfuro.py:59-60) is modelled as a function, and the loop of `isalphafold` is left out:

| method | function |
|---|---|
| `PotentialBridges` | `DetectedBridges` |
| `Discard` | `ConfidentBridges` |
| `CreateOutput` | `ReportLines` |
| `GeneratePml` | `Script` |

The promised properties are lemmas about those functions.

Modules:
- `Results`: `Option`.
- `Seqs`: order-preserving filtering, the shape of each "loop and append what passes".
- `Text`: the Python string operations the scripts use: `str.strip`, `str.split`, `str(int)`, `s[:-4]`.
- `Itertools`: `combinations(s, 2)`.
- `Disulfide`: `puentes_disulfuro.py`.
- `Pymol`: `generar_pymol.py`.
- `Pipeline`: what the script generated from a report contains.

Where the code differs from its own comments and names, the model follows the code:
- **Candidates are chosen by atom name only.** The docstring of `potenciales_disulfuro` (puentes_disulfuro.py:48-50) and the comment at line 58 speak of cysteine atoms. The comprehension at lines 59-60, however, keeps every atom named `SG` and never looks at the residue type. `Atom.resName` exists in the model and is never read.
- **Provenance comes from the file's contents.** `descartar`'s first parameter is named `structure` (line 104), but `main` passes it the file path (line 163). `isalphafold` opens that path and scans the file's text for `ALPHAFOLD`. The model takes the resulting flag as an input.
- **Only a missing CB leads to skipping a pair.** Within the geometric test, a missing `CB` atom is the one failure the model represents (`except: continue`, lines 93-94). A pair rejected by the dihedral test is not skipped: it reaches `if puente` with the flag false.

## Model

| member | source | states |
|---|---|---|
| Disulfide.PotentialBridges | puentes_disulfuro.py:59-102 | The loop over candidate pairs returns exactly `DetectedBridges`: the sulfur pairs, in combinations order, that pass the distance gate, have both CB atoms and have a dihedral within [84, 96]. |
| Disulfide.SulfurAtomsSelected | puentes_disulfuro.py:59-60 | An atom is a candidate iff it is in the structure and is named `SG`. Candidates keep structure order: they form a subsequence of the atoms. |
| Disulfide.DetectedMembers | puentes_disulfuro.py:62-101 | A pair is detected iff its first atom comes before its second among the candidates, its squared distance lies in [2.25, 6.25], both CB atoms are present, and the absolute dihedral lies in [84, 96] (both bounds inclusive). |
| Disulfide.DetectedShape | puentes_disulfuro.py:59-101 | Detected bridges are a subsequence of the combinations, so they keep enumeration order. Both atoms of each are named `SG`. There are at most n(n-1)/2 of them for n candidates. |
| Disulfide.BondLengthOnSquares | puentes_disulfuro.py:65-67 | For the non-negative distance d, the gate on squared distances holds iff 1.5 <= d <= 2.5. So 1.5 and 2.5 pass, and anything outside fails. |
| Disulfide.DistanceSymmetric | puentes_disulfuro.py:65-67 | The distance, and whether the pair fails the distance gate, do not depend on the order of the two atoms. |
| Disulfide.MissingCBSkipped | puentes_disulfuro.py:71-94 | A pair lacking a CB atom is never kept. Pairs after it are judged as if it were absent. |
| Disulfide.FewSulfursNoBridges | puentes_disulfuro.py:59-62 | Fewer than two `SG` atoms give no bridge. |
| Disulfide.Discard | puentes_disulfuro.py:104-125 | The filtering loop returns exactly `ConfidentBridges(bridges, alphaFold)`. |
| Disulfide.ConfidenceFilterShape | puentes_disulfuro.py:107-125 | The confidence filter keeps an order-preserving subsequence. Applying it twice with the same flag equals applying it once. |
| Disulfide.AlphaFoldThreshold | puentes_disulfuro.py:109-116 | For an AlphaFold model, appending a bridge to the input appends it to the output iff both atoms have pLDDT >= 40 (40 is kept). Earlier bridges are unaffected. |
| Disulfide.ExperimentalThreshold | puentes_disulfuro.py:117-124 | For an experimental structure, a bridge is kept iff both B-factors are <= 35 (35 is kept). Earlier bridges are unaffected. |
| Disulfide.ReportRowText | puentes_disulfuro.py:143 | A report row is `{chain1},{resSeq1},{chain2},{resSeq2}` with the residue numbers in decimal. |
| Disulfide.ReportLines | puentes_disulfuro.py:130-143 | The report has one line more than there are bridges. The first line is the header `cadena1,res1,cadena2,res2`. Line i + 1 is the row of bridge i. |
| Disulfide.CreateOutput | puentes_disulfuro.py:127-144 | The writing loop produces the file name `Puentes_disulfuro_<path minus last four chars>.csv` and exactly `ReportLines(bridges)`. |
| Disulfide.ReportRowFields | puentes_disulfuro.py:143 | When the chain ids contain no comma, splitting a row on `,` gives back its four fields: chain, residue number, chain, residue number. |
| Disulfide.Run | puentes_disulfuro.py:146-173 | An unopened structure is the only failure. For a loaded structure, a report is produced iff more than one detected bridge survives the confidence filter. The report is then exactly the header and rows of those bridges, under the report file name. |
| Itertools.IndexPairs | puentes_disulfuro.py:62 | The position pairs of length n: n(n-1)/2 of them, each (i, j) with i < j < n, strictly increasing in lexicographic order (so no repeats and no self-pairs), and every i < j < n among them. |
| Itertools.CombinationsMembers | puentes_disulfuro.py:62 | (a, b) is produced iff a occurs at an earlier position than b. |
| Itertools.CombinationsLength | puentes_disulfuro.py:62 | `combinations(s, 2)` yields n(n-1)/2 pairs. |
| Seqs.FilterSnoc | puentes_disulfuro.py:99-101 | Appending to the output exactly when the element passes keeps the output equal to the filter of the prefix seen so far. |
| Seqs.FilterMembers | puentes_disulfuro.py:107-125 | An element is kept iff it occurs in the input and passes. |
| Text.TrimStartSpec | generar_pymol.py:18 | `strip`'s left half removes the longest all-whitespace prefix (Python's `isspace` set), and no more. |
| Text.TrimEndSpec | generar_pymol.py:18 | `strip`'s right half removes the longest all-whitespace suffix, and no more. |
| Text.StripLine | generar_pymol.py:18 | A written line that neither starts nor ends with whitespace strips back, newline removed, to itself. |
| Text.SplitJoin | generar_pymol.py:18 | `split(',')` inverts joining with `,` when no field contains a comma. |
| Text.JoinSplit | generar_pymol.py:18 | Joining the pieces of `split(',')` gives back the line. |
| Text.NatRoundTrip | generar_pymol.py:25-30 | The decimal text of a row counter reads back as that counter. |
| Text.NatToStringInjective | generar_pymol.py:25-30 | Different counters are written as different texts. |
| Text.IntRoundTrip | puentes_disulfuro.py:143 | A residue number written with `str` (sign included) reads back as that number. |
| Text.DropLastFour | puentes_disulfuro.py:129 | `s[:-4]` is the prefix of `s` four characters shorter, or empty when `s` is shorter than four. |
| Text.DropExtension | generar_pymol.py:3 | On a name ending in a four-character extension, `[:-4]` removes exactly that extension. |
| Pymol.GeneratePml | generar_pymol.py:1-43 | Writing the script line by line yields the output name `<pdb minus last four chars>.pml`, and the lines and failing row given by `Script(pdb, csv)`. |
| Pymol.RowLines | generar_pymol.py:21-30 | Each data row yields exactly four lines: two `select` lines, then `show spheres`, then `color yellow`. |
| Pymol.ScriptComplete | generar_pymol.py:7-41 | When every data row has four fields, the script contains, in order, the four-line preamble (`load`, `hide everything`, `show cartoon`, `color palecyan, all`), then, for each row i from 1, its four lines naming `puente{i}_1` and `puente{i}_2`, then `zoom`. That is 4 + 4·rows + 1 lines. |
| Pymol.ScriptFailure | generar_pymol.py:16-41 | The script fails iff some data row does not split into four fields. It fails at the first such row f, with 4·f lines: the preamble, then for each row j before f its four lines numbered j, and no `zoom` line. |
| Pymol.FailureNoZoom | generar_pymol.py:16-41 | A body that stops at a malformed row contains no `zoom` line, because `zoom` is written only after the loop ends. |
| Pymol.HeaderIgnored | generar_pymol.py:13 | The first CSV line is consumed: whatever it says, the script is the same. |
| Pymol.RowNamesDistinct | generar_pymol.py:15-38 | Rows with different counters get different selection names, so no `show spheres` line repeats another row's. |
| Pymol.BodyComplete | generar_pymol.py:16-41 | Well-formed rows give no failure, and 4 lines per row followed by `zoom`. |
| Pymol.BodyBlockAt | generar_pymol.py:16-38 | If the row at position i and all rows before it have four fields, that row (numbered k + i) occupies lines 4i to 4i + 3 of the body, whether or not a later row fails. |
| Pymol.BodyFailure | generar_pymol.py:16-18 | The body fails iff some row is malformed. Then it fails at the first malformed row, and 4 lines are written for each row before it. |
| Pymol.ParsedAt | generar_pymol.py:18 | Row i is read by unpacking `line.strip().split(',')` of line i. |
| Pipeline.ReportRowParses | generar_pymol.py:18 | A report row read back as a file line unpacks into the bridge's chain ids and decimal residue numbers. This holds when neither chain id contains a comma or a line break, and the first has no leading whitespace. |
| Pipeline.BlankChainLost | generar_pymol.py:18 | A blank first chain id (`" "`) is written to the report, but `strip` removes it when the row is read back, so the script selects chain `""`. |
| Pipeline.ReportDrivesScript | generar_pymol.py:7-41 | The script generated from a report of such bridges does not fail. It has 4 + 4n + 1 lines: the preamble, then for bridge i the four lines numbered i + 1 selecting its chains and residue numbers, then `zoom`. |

## Left out

- **Structure parsing (`abrir_estructura`, Bio.PDB's parser).** The structure comes in as a sequence of atom records:
  - name, residue type, chain id, residue number, coordinates, B-factor;
  - the parent residue's `CB` coordinates, if it has one.

  `None` stands for a structure that is falsy. Parser exceptions, which end the program, are not modelled.
- **`isalphafold` and its case-insensitive scan of the file for `ALPHAFOLD`.** This is file I/O. The AlphaFold flag is a parameter of `Disulfide.Discard` and `Disulfide.Run`.
- **Floating-point geometry.**
  - The distance `abs(atom1 - atom2)` is a square root. The model keeps the squared distance and gates it on the squared bounds; `Disulfide.BondLengthOnSquares` shows the two gates agree.
  - `calc_dihedral` followed by `math.degrees` is a parameter `Dihedral` that returns degrees. Rounding is not modelled: reals are exact.
- **`if atomCB1 and atomCB2` (`puentes_disulfuro.py:78`).** This tests the truth value of a Bio.PDB `Vector` object. The model treats both vectors as true, so a missing `CB` is the only way a pair fails before the angle test.
- **Exceptions other than a missing `CB`.** The bare `except` at `puentes_disulfuro.py:93` would also skip a pair if building the vectors or computing the dihedral raised. The model's dihedral is a total function and never fails.
- **`print` messages, `sys.argv` handling and exit codes, in both files.** These are I/O. `Disulfide.Outcome` separates a failed open, no report, and a report.
- **File writing in both files.** Outputs are sequences of lines: the file's text is each line followed by `\n`. `generar_pml`'s input is the sequence of lines that iterating over the open CSV yields.
- **A PyMOL script cut short by a failed unpacking.** Only the lines written before the failure and the failing row number are modelled (`Pymol.Written`). The raised `ValueError` itself is not.
- **The triple-quoted block at `generar_pymol.py:32-36`.** It is a string literal that is never used and writes nothing.
- **Text encoding.** Strings are sequences of characters. The UTF-8 encoding the files are opened with is not modelled.
- Pipeline.ReportRowParses: requires chain ids without commas or line breaks, and a first chain id without leading whitespace. Other chain ids do not survive the CSV round trip, as `Pipeline.BlankChainLost` shows.
