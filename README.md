# Coeus / Gnowee core in Dafny

Coeus optimises the design of an energy tuning assembly (ETA). An ETA is a
stack of foils and of horizontal and vertical material layers. Its design is
tuned so that the neutron spectrum at a detector matches an objective
spectrum. Each candidate design is scored by a Monte Carlo transport run. The
search is Gnowee, a population-based metaheuristic. This project models the
search core in Dafny and proves properties of the model:

- **Design and population** (`design.dfy`, `design_vector.dfy`, `population.dfy`, `bounds.dfy`).
  `Parent` designs with cells, surfaces and material keys, and the design
  vector read from them and written back. The Gnowee settings object, the
  fitness penalties, `Pop_Update`, the `Timeline` history, and the simple and
  rejection bounds.
- **Operators of `Metaheuristics.py`**:
  - `material_search.dfy`: Levy flights over materials, elite crossover and partial inversion;
  - `cell_search.dfy`: Levy flights over cells and the bounded mutation;
  - `layer_search.dfy`: crossover, 2-opt and 3-opt layer reordering;
  - `discard_cells.dfy`: the weighted cell discard.
- **Sampling** (`sampling.dfy`, `nolh.dfy`, `initial_samples.dfy`, `levy.dfy`).
  The CDR permutation tables, the NOLH construction, the initial samples in
  every mode, and the shapes of Levy and truncated-Levy steps.
- **Utilities** (`utilities.dfy`, `objective.dfy`, `constraints.dfy`).
  `Switch`, the weighted random generator, `Meta_Stats`, the
  normalised-difference and least-squares measures, the objective function
  with its projection of zero bins, and the constraint functions.
- **Inputs and data** (`eta.dfy`, `advantg.dfy`, `keyword_file.dfy`,
  `mcnp_*.dfy`, `nuclear_data.dfy`, `transport.dfy`). The keyword readers of
  the ETA, ADVANTG and MCNP settings. The MCNP surface, cell and material
  cards with their validation and line wrapping, and the tally reader. The
  density table and element lists of the nuclear data. The variable file of
  the transport driver.
- **Driver** (`coeus.dfy`). The operator schedule of one generation of
  `Coeus.py`, the history updates the operators leave, the loop test and the
  convergence test.

Conventions:

- The source is Python 2 (`f.next()` on files, `dict.iteritems()`, `print`
  statements in its tests); the model follows Python 2 semantics wherever
  they differ from Python 3, such as `round` halving away from zero.
- Python floats are `real`, and Python's `int()`, negative indexes, `round`
  and the string methods used are written out (`pymath.dfy`, `pytext.dfy`).
- Every random draw (`random()`, `np.random`, permutations, Levy steps) is a
  parameter. A loop that redraws until a draw is acceptable reads a finite
  list of draws and gives `DrawsExhausted` when the list runs out.
- Python exceptions are `Err` values of `Wrappers.Error`: assertion, key,
  index, value, attribute, name, type and zero-division errors, and
  `SystemExit`.
- Operators deep-copy designs in the source. So designs are datatypes, and the
  operators are methods that build new lists of them, proved against
  functions that describe each iteration and the run of iterations.
- Objects whose methods update their fields are classes: the settings
  readers, `Switch`, `WeightedRandomGenerator`, `Meta_Stats`,
  `ObjectiveFunction` and `Timeline`.

## Model

| member | source | states |
|---|---|---|
| Constraints.LookupConstraint | Code/Constraints.py:52-54 | the function table knows exactly "less_or_equal" and "greater_than"; any other name is a KeyError |
| Constraints.HandleAsWritten | Code/Constraints.py:58-61 | as written the constructor stores the None that `set_constraint_func` returns, so a named constraint ends with no function |
| Constraints.HandleIntended | Code/Constraints.py:58-61 | the intended handle: none exactly when no method is named, otherwise the function of that name |
| Constraints.HandleLostOnConstruction | Code/Constraints.py:58-59 | for "less_or_equal" the as-written handle is None while the intended one is `less_or_equal` |
| Constraints.Constraints.constructor | Code/Constraints.py:28-68 | for a known method name, stores the named constraint function, the limit, the tally number and the penalty |
| Constraints.Constraints.New | Code/Constraints.py:28-109 | construction fails with KeyError exactly when a method name is given that the table does not know; otherwise a new object holds that function and the given fields |
| Constraints.Constraints.SetConstraintFunc | Code/Constraints.py:99-109 | succeeds exactly for a known name and then holds that function; an unknown name raises KeyError and changes nothing |
| Constraints.Constraints.GetPenalty | Code/Constraints.py:111-124 | a violation in (0, 1] costs exactly the penalty and no violation costs nothing |
| Constraints.Constraints.LessOrEqual | Code/Constraints.py:133-148 | no penalty within the limit, the penalty of the excess above it; with a positive penalty the result is 0 exactly when the candidate is within the limit |
| Constraints.Constraints.GreaterThan | Code/Constraints.py:150-165 | no penalty above the limit, the penalty of the shortfall otherwise; with a positive penalty the result is 0 exactly when the candidate is at least the limit |
| Constraints.PenaltyPositive | Code/Constraints.py:124 | any positive violation rounds up to at least 1, so it costs at least the full penalty |
| Constraints.PenaltyMonotone | Code/Constraints.py:124 | the penalty never decreases as the violation grows |
| ObjectiveFunction.LookupFunc | Code/ObjectiveFunction.py:63-66 | the function table knows exactly the three names; any other name is KeyError(name) |
| ObjectiveFunction.LookupFuncName | Code/ObjectiveFunction.py:63-66 | every function is found again under its own name |
| ObjectiveFunction.ObjectiveFunction.constructor | Code/ObjectiveFunction.py:28-84 | stores the named function (none when no name is given), the tally, the type, the form and the objective |
| ObjectiveFunction.ObjectiveFunction.New | Code/ObjectiveFunction.py:28-125 | construction fails with KeyError exactly when a method name is given that the table does not know; otherwise a new object holds that function (none without a name), the tally, the type, the form and the objective |
| ObjectiveFunction.ObjectiveFunction.SetObjFunc | Code/ObjectiveFunction.py:116-126 | succeeds exactly for a known name and then holds that function; an unknown name raises KeyError and changes nothing |
| ObjectiveFunction.ObjectiveFunction.Observed | Code/ObjectiveFunction.py:154 | the objective's value column has one entry per objective row |
| ObjectiveFunction.ObjectiveFunction.UOpt | Code/ObjectiveFunction.py:135-154 | the summed absolute deviation is never negative and is 0 exactly when the candidate equals the objective |
| ObjectiveFunction.ObjectiveFunction.LeastSquares | Code/ObjectiveFunction.py:156-174 | the summed squared deviation is never negative and is 0 exactly when the candidate equals the objective |
| ObjectiveFunction.ObjectiveFunction.RelativeLeastSquares | Code/ObjectiveFunction.py:176-223 | a length mismatch is an AssertionError; with equal lengths it fails with IndexError exactly for a single zero bin when projecting, and an empty candidate and objective score 0.0; otherwise zero bins are projected in place (or left alone without projection) and the score is the weighted relative error of the result |
| ObjectiveFunction.ObjectiveFunction.ProjectZeros | Code/ObjectiveFunction.py:201-221 | the loop over the bins leaves the candidate equal to its projection |
| ObjectiveFunction.ObjectiveFunction.FindExtrapIndices | Code/ObjectiveFunction.py:206-218 | the index search returns the extrapolation pair of the bin |
| ObjectiveFunction.ForwardSearch | Code/ObjectiveFunction.py:208-215 | the forward search gives two adjacent bins, either both non-zero and ahead of the bin or the two bins before it |
| ObjectiveFunction.ExtrapIndices | Code/ObjectiveFunction.py:206-218 | the pair is adjacent and made of valid Python indexes; unless it falls back to the two bins before, both bins lie ahead and are non-zero |
| ObjectiveFunction.ExtrapIsLinear | Code/ObjectiveFunction.py:219-221 | the projected value is the linear extrapolation through the pair (the pair is one bin apart, so the division is by 1) |
| ObjectiveFunction.ProjectedChangesOnlyZeroBins | Code/ObjectiveFunction.py:203 | only bins that were zero change, and bins not yet visited are untouched |
| ObjectiveFunction.ProjectedNoZeros | Code/ObjectiveFunction.py:203 | a candidate with no zero bins is not changed |
| ObjectiveFunction.RelTermNonNegative | Code/ObjectiveFunction.py:222-223 | each bin's term is non-negative for positive objective values |
| ObjectiveFunction.RelTermExact | Code/ObjectiveFunction.py:222-223 | a bin equal to its objective contributes 0 |
| ObjectiveFunction.WeightedRelativeErrorNonNegative | Code/ObjectiveFunction.py:222-223 | the score is never negative when the objective values are positive |
| ObjectiveFunction.WeightedRelativeErrorExact | Code/ObjectiveFunction.py:201-223 | a candidate equal to an objective with no zero bins is not projected and scores 0 |
| Transport.HeaderPair | Code/Transport.py:106-107 | a cleaned header line unpacks exactly when it holds one '='; otherwise ValueError; neither side holds '=' |
| Transport.HeaderPairSides | Code/Transport.py:106-107 | the cleaned line is the name, '=' and the value |
| Transport.LineStep | Code/Transport.py:105-114 | a line fails only with ValueError and only when it is an unreadable header line; it stops the header exactly when it is blank; a header line only adds names |
| Transport.ImportFrom | Code/Transport.py:104-114 | reading fails only with ValueError and stops within the file |
| Transport.ImportStops | Code/Transport.py:113-114 | the header ends at the first blank line (or at the end of the file) |
| Transport.ImportFailsIff | Code/Transport.py:104-114 | reading fails exactly when an unreadable header line comes before the first blank line |
| Transport.ImportKeepsNames | Code/Transport.py:108-112 | reading only adds names to the two dictionaries |
| Transport.Transport.constructor | Code/Transport.py:28-52 | stores the path and the code and starts with empty dictionaries and an empty body |
| Transport.Transport.ImportFile | Code/Transport.py:84-117 | the dictionaries and body become those of the header reading and of the lines after the blank line; a failing line raises its error and leaves the body unset |
| Transport.HeaderRoundTrip | Code/Transport.py:105-112 | a header line written for a variable reads back as its name and value |
| Transport.CleanedLine | Code/Transport.py:106-110 | the cleaning steps undo the layout of a header line |
| Transport.StripLineEnd | Code/Transport.py:106 | `rstrip('\n')` removes exactly the line ending |
| Transport.SpacedEquals | Code/Transport.py:106 | `replace(' =', '=')` joins the name to the value |
| Transport.SplitPair | Code/Transport.py:107 | splitting `k=v` on '=' gives k and v |
| Transport.Deck | Code/Transport.py:90-95 | a deck is the header lines of its variables, a blank line and the body |
| Transport.DeckRoundTrip | Code/Transport.py:84-117 | reading a deck gives back exactly its declared sampled and correlated variables, stops at the blank line, and keeps the rest as the body |
| Transport.DeckLines | Code/Transport.py:84-117 | a deck written from variables and a body of non-empty lines is itself made of non-empty lines |
| Transport.DeckFrom | Code/Transport.py:104-114 | from header line i on, reading adds the remaining declarations |
| Transport.DeckEnd | Code/Transport.py:113-114 | the blank line after the header ends the reading |
| Transport.DeckStep | Code/Transport.py:105-112 | reading one header line adds its declaration |
| McnpTally.ParseRow | Code/MCNP_Utilities.py:897-903 | a row starting with "total" ends the tally; any other row stores its first two words as floats (fewer than two words or an unparsable word is an error) |
| McnpTally.TallyFrom | Code/MCNP_Utilities.py:886-903 | the tally never has more rows than the lines left to read |
| McnpTally.ReadTallyOutput | Code/MCNP_Utilities.py:872-915 | the result is the tally the line-by-line reading defines over the split and parsed lines |
| McnpTally.ReadTallyLines | Code/MCNP_Utilities.py:886-903 | the loop over the lines keeps the rows read so far as a prefix of the tally and returns exactly the tally |
| McnpTally.TallyStep | Code/MCNP_Utilities.py:889-903 | one pass of the loop: a header jumps 11 lines ahead or raises StopIteration; inside a block a row is kept, "total" closes the block and a bad row is the error; what is kept plus the rest of the file is the tally from that line |
| McnpTally.NoHeaderNoRows | Code/MCNP_Utilities.py:890-892 | a file without the tally's header line gives an empty tally |
| McnpTally.SkipToHeader | Code/MCNP_Utilities.py:886-892 | lines before the first header add nothing to the tally |
| McnpTally.RowsToTotal | Code/MCNP_Utilities.py:897-903 | inside an open block, the rows up to the "total" line are the tally when no header follows |
| McnpTally.TallyLayout | Code/MCNP_Utilities.py:886-903 | with the only header at line h, lines h+1 to h+10 skipped whatever they hold, rows at h+11 to t-1 and "total" at t, the tally is exactly those rows in order |
| McnpTally.RowValuesAt | Code/MCNP_Utilities.py:903 | entry k of the tally in that layout is the pair of floats parsed from line h+11+k |
| NuclearData.Stripped | Code/NuclearData.py:119-175 | stripping removes exactly protactinium and the selected lists and keeps every other density unchanged |
| NuclearData.MaterialLibrary.constructor | Code/NuclearData.py:60-65 | the library starts with the densities it is built from |
| NuclearData.MaterialLibrary.SetDensities | Code/NuclearData.py:110-114 | the names stay the same; listed names take the table's density, the others keep theirs |
| NuclearData.MaterialLibrary.SetDensity | Code/NuclearData.py:82-116 | `Set_Density` gives every listed element its table density and leaves the other materials alone |
| NuclearData.MaterialLibrary.RemoveAll | Code/NuclearData.py:153-157 | deleting a list's names present in the library removes exactly those names |
| NuclearData.MaterialLibrary.StripUndesireables | Code/NuclearData.py:119-175 | the library becomes its stripped form |
| NuclearData.MaterialLibrary.CheckDensities | Code/NuclearData.py:71-73 | exits (SystemExit) exactly when some material has density -1 |
| NuclearData.MaterialLibrary.BuildMatlib | Code/NuclearData.py:32-79 | fails exactly when a material has no density after `Set_Density`; otherwise returns the stripped library |
| NuclearData.Densified | Code/NuclearData.py:110-116 | setting densities keeps the library's names |
| NuclearData.MakeModeratingRatio | Code/NuclearData.py:273-280 | the constructor succeeds exactly when both ratios are floats (the integer defaults fail its assertions) and then stores them |
| NuclearData.DensifiedIdempotent | Code/NuclearData.py:110-116 | setting the densities twice is the same as once |
| NuclearData.DensifyStripCommute | Code/NuclearData.py:68-77 | setting densities and stripping commute |
| NuclearData.StripCumulative | Code/NuclearData.py:146-173 | stripping with fewer lists and then with more is the same as stripping once with more |
| NuclearData.StripIdempotent | Code/NuclearData.py:146-173 | stripping is idempotent |
| NuclearData.StrippedSize | Code/NuclearData.py:146-173 | when every removed name is present, the library shrinks by exactly the number of removed names |
| NuclearData.RemovedSize | Code/NuclearData.py:146-173 | stripping removes 1 name plus 10 gases, 3 liquids and 19 expensive elements as selected |
| NuclearData.ListSizes | Code/NuclearData.py:152-168 | the gas, liquid and expensive lists hold 10, 3 and 19 distinct elements |
| NuclearData.ListsDisjoint | Code/NuclearData.py:146-168 | the three lists and protactinium do not overlap |
| NuclearData.StripSequenceSizes | Code/NuclearData.py:146-173 | a library holding every listed name loses 1, then 10, then 3, then 19 names as each list is selected |
| McnpCards.KindOf | Code/MCNP_Utilities.py:536-583 | the constructor checks exactly the so, cx, cy, cz, px, py, pz, rcc, rpp and trc types, case-insensitively |
| McnpCards.FieldTablesPartition | Code/MCNP_Utilities.py:536-595 | for each family every argument is either type-checked as used or required to stay -1, never both |
| McnpCards.RadiiAreUsed | Code/MCNP_Utilities.py:539-592 | the radii that must be positive are arguments the family uses |
| McnpCards.FirstNonFloat | Code/MCNP_Utilities.py:538-591 | the first argument that fails its float assertion, or none exactly when all are floats |
| McnpCards.CheckSurface | Code/MCNP_Utilities.py:531-600 | the surface is accepted unchanged exactly when its type is unknown (only logged) or its arguments are well-formed for its family; otherwise AssertionError |
| McnpCards.MakeCell | Code/MCNP_Utilities.py:678-703 | the cell is built exactly when the density is a float, and keeps every argument |
| McnpCards.UnitsOf | Code/MCNP_Utilities.py:710-715 | "atom", "mass" and "void" are recognised after stripping and lower-casing |
| McnpCards.DensityField | Code/MCNP_Utilities.py:709-717 | unknown units leave the card unset (an error); void cells print no density; otherwise the density printed is d or -d |
| McnpCards.DensitySign | Code/MCNP_Utilities.py:710-713 | atom densities print as d and mass densities as -d |
| McnpCards.Wrap | Code/MCNP_Utilities.py:656-733 | a card of at most 75 characters is kept; a longer one becomes its chunks joined by the continuation break |
| McnpCards.WrapKeepsText | Code/MCNP_Utilities.py:658-670 | the chunks concatenate back to the space-joined words |
| McnpCards.WrapChunksFit | Code/MCNP_Utilities.py:662 | every chunk is at most 75 characters when every word is shorter than 75 |
| McnpCards.WrapLineKeepsText | Code/MCNP_Utilities.py:656-670 | a long card wraps into chunks that concatenate back to the card |
| McnpSettingsFile.KeyOf | Code/MCNP_Utilities.py:75-96 | a line is classified after stripping and lower-casing as "/", "physics:", "nps:", blank or other |
| McnpSettingsFile.PhysicsBlock | Code/MCNP_Utilities.py:74-89 | a "Physics:" line, body lines and "/" replace the physics cards with the stripped body lines, each ending in a newline |
| McnpSettingsFile.PhysicsBody | Code/MCNP_Utilities.py:74-89 | after the header and body lines the physics text is the stripped body and the block is still open |
| McnpSettingsFile.NumberLine | Code/MCNP_Utilities.py:79-83 | in the NPS block a numeric line sets the particle count |
| McnpSettingsFile.McnpSettings.constructor | Code/MCNP_Utilities.py:30-41 | the defaults are "MODE n\n", 1E6 particles, no tallies and no source |
| McnpSettingsFile.McnpSettings.ReadSettings | Code/MCNP_Utilities.py:63-105 | the physics cards and particle count become those of the line-by-line reading; it fails exactly when a line in the NPS block is not a number |
| McnpSettingsFile.McnpSettings.SetTallies | Code/MCNP_Utilities.py:134-143 | the standard tally block for the cell and material is appended to the user tallies |
| McnpSettingsFile.SettingsLinesStopped | Code/MCNP_Utilities.py:83 | once a line has failed, the later lines change nothing |
| McnpGeometry.AppendNewProperties | Code/MCNP_Utilities.py:312-334 | appending keeps the existing list as a prefix, adds only listed items, keeps names distinct, and leaves every added name present |
| McnpGeometry.AppendNewIdempotent | Code/MCNP_Utilities.py:305-316 | adding the same list twice is the same as adding it once |
| McnpGeometry.AppendNewAllPresent | Code/MCNP_Utilities.py:313-332 | when every name is taken already, nothing is appended |
| McnpGeometry.AppendListAsWritten | Code/MCNP_Utilities.py:310-334 | as written the list form, when it succeeds, appends like the single form; its warning reads `adds.name` on a list |
| McnpGeometry.DuplicateInListFails | Code/MCNP_Utilities.py:314 | adding a list holding an existing surface fails as written (AttributeError), while the intended behaviour skips it |
| McnpGeometry.KnownKeys | Code/MCNP_Utilities.py:348-352 | only keys of the library are kept, at most one per key given |
| McnpGeometry.KnownKeysAllKnown | Code/MCNP_Utilities.py:348-350 | a list of known keys is kept whole, duplicates included |
| McnpGeometry.Geometry.constructor | Code/MCNP_Utilities.py:147-153 | the geometry starts with no surfaces, cells or materials |
| McnpGeometry.Geometry.AddSurf | Code/MCNP_Utilities.py:303-308 | a surface is appended unless its name is taken |
| McnpGeometry.Geometry.AddSurfs | Code/MCNP_Utilities.py:310-316 | each listed surface is appended unless its name is taken by then |
| McnpGeometry.Geometry.AddCell | Code/MCNP_Utilities.py:321-326 | a cell is appended unless its name is taken |
| McnpGeometry.Geometry.AddCells | Code/MCNP_Utilities.py:328-334 | each listed cell is appended unless its name is taken by then |
| McnpGeometry.Geometry.AddMatl | Code/MCNP_Utilities.py:341-345 | a key is appended when the library holds it, duplicates allowed |
| McnpGeometry.Geometry.AddMatls | Code/MCNP_Utilities.py:347-352 | the library keys among those given are appended in order |
| McnpGeometry.MaterialsAddedTwice | Code/MCNP_Utilities.py:342-349 | materials are not de-duplicated: adding two known keys twice lists four |
| EtaUtilities.InAllKeys | Code/ETA_Utilities.py:29-146 | every attribute of the parameters is listed |
| EtaUtilities.DefaultValue | Code/ETA_Utilities.py:29-37 | every default argument has its attribute's kind |
| EtaUtilities.DefaultsComplete | Code/ETA_Utilities.py:29-37 | the defaults give a value of the right kind to every attribute |
| EtaUtilities.LastIndexOf | Code/ETA_Utilities.py:396-398 | the index of the last foil named like the fissile material, or none exactly when no foil is |
| EtaUtilities.ScaleMinFiss | Code/ETA_Utilities.py:395-399 | succeeds exactly when a fissile foil is found and its scale is non-zero; then only min_fiss changes, to the old value over source strength times the fissile foil's volume |
| EtaUtilities.CheckFoils | Code/ETA_Utilities.py:38-39 | the constructor's assertions hold exactly when each foil list has one thickness per material |
| EtaUtilities.ConstructAsWritten | Code/ETA_Utilities.py:149-152 | as written the fissile search compares (index, name) pairs with a name, never matches, and so divides min_fiss by the last TOAD foil's volume |
| EtaUtilities.Construct | Code/ETA_Utilities.py:29-152 | the intended constructor fails exactly when a length check fails or min_fiss cannot be scaled by the fissile foil |
| EtaUtilities.DefaultsHaveFoils | Code/ETA_Utilities.py:34-35 | the defaults list the TOAD foils and name Pb as fissile |
| EtaUtilities.DefaultLists | Code/ETA_Utilities.py:34-35 | the default NAS foils are Zr, Zn, In, Al and Ta at 0.1, 0.1, 0.1, 0.1 and 0.01, the TOAD foils Au and Pb at 0.0254 and 0.0127 |
| EtaUtilities.DefaultSource | Code/ETA_Utilities.py:29-35 | the default source is 5E15, the TOAD foil radius 1.252, min_fiss 5E8 and the fissile material Pb |
| EtaUtilities.DefaultScale | Code/ETA_Utilities.py:149-152 | with the default foils, naming Au or Pb as fissile divides min_fiss by that foil's volume |
| EtaUtilities.DefaultMinFiss | Code/ETA_Utilities.py:29-152 | the default parameters give a minimum of about 1.599E-06 fissions per source particle |
| EtaUtilities.ConstructorUsesLastFoil | Code/ETA_Utilities.py:149 | with Au as the fissile foil, as written min_fiss is scaled by the Pb foil instead of the Au foil |
| EtaUtilities.EtaRequests | Code/ETA_Utilities.py:257-383 | each line of the file makes one request of the right kind |
| EtaUtilities.Parsed | Code/ETA_Utilities.py:257-383 | applying the file's requests keeps every attribute of its kind |
| EtaUtilities.Read | Code/ETA_Utilities.py:250-399 | `read_constraints` fails exactly when a line fails or min_fiss cannot be scaled after reading; otherwise it is the parsed attributes with min_fiss scaled |
| EtaUtilities.ReadDividesTwice | Code/ETA_Utilities.py:399 | a file that does not set min_fiss divides the constructor's already divided value a second time (the constructor divides at line 152) |
| EtaUtilities.ParsedKeepsMinFiss | Code/ETA_Utilities.py:260-262 | a file that does not set min_fiss leaves it as it was before the scaling |
| EtaUtilities.ReadIntended | Code/ETA_Utilities.py:395-399 | the corrected reading scales min_fiss only when the file gives a new one |
| EtaUtilities.ReadIntendedKeeps | Code/ETA_Utilities.py:399 | without a new min_fiss the corrected reading keeps the constructor's value, divided once (the constructor divides at line 152) |
| EtaUtilities.FindFoil | Code/ETA_Utilities.py:396-398 | the loop finds the last foil named like the fissile material |
| EtaUtilities.ScaleByFoil | Code/ETA_Utilities.py:395-399 | the scaling method computes the scaled attributes |
| EtaUtilities.EtaParameters.constructor | Code/ETA_Utilities.py:29-152 | the parameters are those the intended construction gives |
| EtaUtilities.EtaParameters.ReadConstraints | Code/ETA_Utilities.py:250-399 | the parameters become those of the reading, or the reading's error is returned |
| Advantg.DefaultValue | ADVANTG/ADVANTG_Utilities.py:29-71 | every default argument has its attribute's kind |
| Advantg.Defaults | ADVANTG/ADVANTG_Utilities.py:29-71 | the defaults give every setting its default value, of the right kind |
| Advantg.ReadKeepsComplete | ADVANTG/ADVANTG_Utilities.py:121-169 | reading a settings file keeps every setting of its kind |
| Advantg.AdvantgSettings.constructor | ADVANTG/ADVANTG_Utilities.py:29-71 | a new settings object holds the defaults |
| Advantg.AdvantgSettings.ReadSettings | ADVANTG/ADVANTG_Utilities.py:114-178 | the settings become those of the line-by-line reading (keys matched case-insensitively, values kept as written); a value that does not convert stops it with that error, the lines before it staying applied |
| Advantg.RadialPlanes | ADVANTG/ADVANTG_Utilities.py:224-235 | six x (and y) planes, symmetric about the axis |
| Advantg.AxialPlanes | ADVANTG/ADVANTG_Utilities.py:260-272 | six z planes starting at -ext, ending 2ext past the snout mount, with the TOAD slab 0.7003 thick |
| Advantg.RadialPlanesIncreasing | ADVANTG/ADVANTG_Utilities.py:224-235 | with 0 < r_toad < r_o and ext > 0 the x planes increase |
| Advantg.Intervals | ADVANTG/ADVANTG_Utilities.py:228-236 | one interval count per gap; it fails (ZeroDivisionError) exactly when a spacing is zero |
| Advantg.CeilCover | ADVANTG/ADVANTG_Utilities.py:228 | `ceil(w/s)` intervals of width s are the fewest that cover w |
| Advantg.IntervalsCover | ADVANTG/ADVANTG_Utilities.py:228-236 | over increasing planes with positive spacings every gap gets the fewest intervals of its spacing that cover it |
| Advantg.ToadSurface | ADVANTG/ADVANTG_Utilities.py:265-266 | the first surface with comment "TOAD", or the last surface when there is none; an empty list is an IndexError |
| Advantg.FloorSqrt | ADVANTG/ADVANTG_Utilities.py:220 | `floor(sqrt(n))` is the largest integer whose square is at most n |
| Advantg.CeilSqrt | ADVANTG/ADVANTG_Utilities.py:221 | `ceil(sqrt(n))` is the least integer whose square is at least n |
| Advantg.BlocksNearSquare | ADVANTG/ADVANTG_Utilities.py:218-221 | the x and y block counts differ by at most one, are equal exactly for a square core count, and bracket the core count |
| Advantg.MeshOf | ADVANTG/ADVANTG_Utilities.py:186-276 | six planes and five interval counts on each axis, the same x and y planes, and a block decomposition exactly in cluster mode |
| Advantg.DefaultRadialIntervals | ADVANTG/ADVANTG_Utilities.py:224-236 | with the default spacings the outer gaps get 2 intervals each and the two ETA gaps get the same number |
| KeywordFile.Strips | Code/ETA_Utilities.py:323-329 | each field is stripped, in order |
| KeywordFile.ParseReals | Code/ETA_Utilities.py:326-330 | a list of floats parses exactly when every field converts, one value per field |
| KeywordFile.ParseField | Code/ETA_Utilities.py:258-370 | a value of the keyword's kind; a scalar keyword with no field after it is an IndexError, an unconvertible field a ValueError; text values never fail otherwise |
| KeywordFile.Lookup | Code/ETA_Utilities.py:259-374 | the first keyword of the table with that name, or none exactly when the table does not list it |
| KeywordFile.Interpret | Code/ETA_Utilities.py:259-383 | an unknown keyword (and '/') changes nothing; a known one sets its attribute to a value of its kind |
| KeywordFile.Requests | Code/ETA_Utilities.py:257-259 | one request per line of the file |
| KeywordFile.ApplyFrom | Code/ETA_Utilities.py:257-383 | applying the requests keeps every attribute already set |
| KeywordFile.ApplyLines | Code/ETA_Utilities.py:257-383 | the loop over the lines applies their requests in order |
| KeywordFile.ApplyLine | Code/ETA_Utilities.py:258-383 | one line's request: an error stops the reading with the attributes as the earlier lines left them, an attribute line overwrites that one attribute, any other line is skipped |
| KeywordFile.RequestsSound | Code/ETA_Utilities.py:259-374 | every request names an attribute of the table with a value of its kind |
| KeywordFile.ApplyFromTyped | Code/ETA_Utilities.py:257-383 | reading keeps the attributes and their kinds |
| KeywordFile.ApplyFromUntouched | Code/ETA_Utilities.py:257-383 | an attribute no later line sets keeps its value |
| KeywordFile.LastRequestWins | Code/ETA_Utilities.py:257-383 | the last line setting an attribute decides its value |
| KeywordFile.ApplyFromFailsIff | Code/ETA_Utilities.py:257-383 | reading fails exactly when some line's value cannot be read |
| KeywordFile.ReachedAtError | Code/ETA_Utilities.py:257-383 | when line j is the first bad one, reading fails with its error and the attributes are those of reading the lines before it |
| KeywordFile.KeywordAndFields | Code/ETA_Utilities.py:258-259 | the keyword is the stripped, lower-cased text before the first comma and the fields are the rest split on commas |
| KeywordFile.KeywordIgnoresCase | ADVANTG/ADVANTG_Utilities.py:122-123 | keywords differing only in case or surrounding spaces read the same |
| KeywordFile.FieldsOfJoin | Code/ETA_Utilities.py:341-345 | a list written out with commas gives its entries back as fields |
| KeywordFile.TextListField | Code/ETA_Utilities.py:341-345 | a list of stripped names reads back as itself |
| Utilities.Switch.constructor | Code/Utilities.py:34-39 | a new matcher holds the selector value and has not fallen through |
| Utilities.Switch.Match | Code/Utilities.py:48-56 | a case matches when an earlier case matched, when it lists no values, or when it lists the selector; only a listed selector makes later cases match |
| Utilities.Dispatch | Code/Utilities.py:41-56 | a chain of cases runs the first one that is empty or lists the value, and no case before it lists the value |
| Utilities.ToNormDiff | Code/Utilities.py:519-538 | an empty spectrum is an IndexError; otherwise each bin is its flux over its width divided by the total, and the bins sum to 1 |
| Utilities.Uopt | Code/Utilities.py:540-545 | the summed absolute deviation is never negative and is zero exactly when candidate and objective agree |
| Utilities.LeastSquares | Code/Utilities.py:550-555 | the summed squared deviation is never negative and is zero exactly when candidate and objective agree |
| Utilities.LastZeroAtOrBelow | Code/Utilities.py:569-573 | the search from len-6 downward stops at the highest zero bin, or at -1 when no bin at or below it is zero |
| Utilities.RelativeLeastSquares | Code/Utilities.py:561-574 | the score is the sum of the relative squared errors with every bin up to the last zero replaced by the average of the next three |
| Utilities.RelativeLeastSquaresPlain | Code/Utilities.py:569-574 | with no zero bin at or below len-6 nothing is projected |
| Utilities.RelativeLeastSquaresNonNegative | Code/Utilities.py:561-574 | for positive observations the score is never negative |
| Utilities.RelativeLeastSquaresExact | Code/Utilities.py:561-574 | a candidate equal to observations without zero bins scores 0 |
| Utilities.MakeEvent | Code/Utilities.py:580-597 | an event is built exactly when generation and evaluation counts are non-negative, and holds the given values |
| Utilities.PrefixSumsMonotone | Code/Utilities.py:618-625 | non-negative weights give non-decreasing totals |
| Utilities.WeightedRandomGenerator.constructor | Code/Utilities.py:618-625 | the totals are the running sums of the weights |
| Utilities.WeightedRandomGenerator.Next | Code/Utilities.py:627-629 | no weights is an IndexError; otherwise the index is bisect_right of the scaled draw in the totals |
| Utilities.BisectRightSplits | Code/Utilities.py:629 | on sorted totals, every entry before bisect_right is at most the value and every entry from it on is above it |
| Utilities.SplitUnique | Code/Utilities.py:629 | bisect_right is the only index splitting sorted totals that way |
| Utilities.WeightedIndexInRange | Code/Utilities.py:618-629 | with non-negative weights of positive sum and a draw in [0, 1), the chosen index exists and has a positive weight |
| Utilities.MetaStats.constructor | Code/Utilities.py:647-657 | every operator's counters start at (0, 0) |
| Utilities.MetaStats.Update | Code/Utilities.py:673-674 | an unknown operator is a KeyError and changes nothing; a known one has both counters increased by the given pair |
| Utilities.TaskTier | Code/Utilities.py:333-342 | runs up to 1E6 particles get one task per core, up to 1E7 four, up to 1E8 twelve, above that fourteen |
| Utilities.TaskTierMonotone | Code/Utilities.py:333-342 | more particles never get fewer tasks |
| Utilities.BatchSplitProperties | Code/Utilities.py:365-370 | a group is split in two exactly when it has fewer than 20 tasks and an odd number of runs; the split keeps every run in order and leaves an even first batch |
| Utilities.TruncIndex | Code/Gnowee_Utilities.py:680 | int(v) of a value in [0, n) is an index below n |
| Utilities.TruncBelow | Code/Gnowee_Utilities.py:680 | int(random() * n) with a draw in [0, 1) is an index below n |
| Population.DefaultValue | Code/Gnowee_Utilities.py:94-96 | each setting's default is a value of that setting's kind |
| Population.Defaults | Code/Gnowee_Utilities.py:94-139 | a new settings object holds every setting, each at its default |
| Population.ReadKeepsComplete | Code/Gnowee_Utilities.py:141-224 | reading a settings file keeps every setting present and of its kind |
| Population.GnoweeSettings.constructor | Code/Gnowee_Utilities.py:94-139 | a new settings object holds the defaults |
| Population.GnoweeSettings.ReadSettings | Code/Gnowee_Utilities.py:141-224 | the file's lines are applied in order; a bad value stops the reading with that error, the lines before it staying applied |
| Population.NoDuplicatesCard | Code/Gnowee_Utilities.py:296-323 | a list without repeats has as many distinct entries as entries |
| Population.CountFixedMats | Code/Gnowee_Utilities.py:296-323 | the fixed-material count is the number of distinct materials among the candidates |
| Population.DefaultFixedMats | Code/Gnowee_Utilities.py:296-323 | the default ETA materials give eight fixed materials |
| Population.NewParent | Code/Gnowee_Utilities.py:253-324 | a new parent holds its arguments and the distinct fixed-material count, and switches the settings' sampling method to random |
| Population.FissionAdjustment | Code/Gnowee_Utilities.py:612-618 | no fissions costs 1E15; fewer than the minimum is a positive penalty, more a negative bonus; a zero minimum with fissions divides by zero |
| Population.MoreFissionsBetter | Code/Gnowee_Utilities.py:615-618 | with a positive minimum, more fissions never give a larger adjustment |
| Population.WeightAdjustment | Code/Gnowee_Utilities.py:611-623 | the weight costs either nothing or 1E15, and 1E15 exactly when the weight in grams exceeds 1000 times max_w |
| Population.HeavierNotCheaper | Code/Gnowee_Utilities.py:622-623 | the weight cost never decreases as the weight grows |
| Population.Penalised | Code/Gnowee_Utilities.py:607-623 | the fitness fails (ZeroDivisionError) exactly when min_fiss is 0 and there are fissions; a design without fissions is at least 1E15 worse than its score |
| Population.PenalisedFollowsScore | Code/Gnowee_Utilities.py:607-623 | a lower relative least squares score gives a strictly lower fitness, all else equal |
| Population.PenalisedMoreFissions | Code/Gnowee_Utilities.py:612-618 | with a positive min_fiss, more fissions give a strictly lower fitness, all else equal |
| Population.PenalisedHeavier | Code/Gnowee_Utilities.py:611-623 | a heavier design never has a lower fitness, all else equal |
| Population.OverweightCostsInfeasible | Code/Gnowee_Utilities.py:622-623 | an overweight design scores exactly 1E15 more than one at the limit |
| Population.IndexOfIdent | Code/Gnowee_Utilities.py:604 | the first position holding the identifier, or -1 exactly when none does |
| Population.CalcFitness | Code/Gnowee_Utilities.py:576-627 | the loop scores the designs in order and stops at the first error |
| Population.ScoredStops | Code/Gnowee_Utilities.py:603-627 | after the first error nothing changes |
| Population.ScoredOnlyFitness | Code/Gnowee_Utilities.py:603-627 | scoring changes nothing but fitnesses |
| Population.ScoreOneTarget | Code/Gnowee_Utilities.py:604-627 | the scored fitness lands on the first design with that identifier, or on the last design when none has it |
| Population.Escalation | Code/Gnowee_Utilities.py:688-695 | fitness at most 0.135 below 100 times the base count goes to 100 times the base, else at most 0.5 below 10 times goes to 10 times, else the count stays |
| Population.EscalationRaises | Code/Gnowee_Utilities.py:688-695 | escalation never lowers the particle count |
| Population.EscalationExamples | Code/Gnowee_Utilities.py:688-695 | fitnesses 0.45, 0.105 and 0.0437 at the base count escalate to 1E7, 1E8 and 1E8 |
| Population.PopUpdate | Code/Gnowee_Utilities.py:630-718 | an empty population with candidates is an IndexError, random replacement without draws is DrawsExhausted; otherwise the candidates are compared in order and the changes and escalations counted |
| Population.AcceptAt | Code/Gnowee_Utilities.py:684-695 | one comparison replaces the slot by a better candidate under the old identifier and escalates it |
| Population.Target | Code/Gnowee_Utilities.py:676-681 | the slot is the one with the candidate's identifier, or the drawn one under random replacement |
| Population.IndexOfIdentSameIdents | Code/Gnowee_Utilities.py:677 | the identifier search depends only on identifiers |
| Population.UpdateNeverWorse | Code/Gnowee_Utilities.py:674-695 | no slot gets worse, every slot keeps its identifier, and escalations are at most the changes, at most one per candidate |
| Population.AcceptNoWorse | Code/Gnowee_Utilities.py:684-695 | one comparison makes no slot worse and changes at most one |
| Population.OfferedMeans | Code/Gnowee_Utilities.py:686-687 | a design was offered exactly when it is an earlier candidate up to identifier and particle count |
| Population.UpdateTakesCandidates | Code/Gnowee_Utilities.py:674-695 | every slot is its old design or one of the candidates |
| Population.AcceptTakesCandidate | Code/Gnowee_Utilities.py:684-695 | one more comparison keeps every slot an old design or a candidate |
| Population.RecordedImproving | Code/Gnowee_Utilities.py:770-800 | the history only grows, by one event exactly when the history is empty or the best fitness strictly improves, and stays strictly improving |
| Population.RecordedCounts | Code/Gnowee_Utilities.py:784-800 | the last event's counts grow by the generations and evaluations passed in |
| Population.Timeline.constructor | Code/Gnowee_Utilities.py:740-741 | a new history is empty |
| Population.Timeline.Update | Code/Gnowee_Utilities.py:756-802 | an empty population is an IndexError; otherwise the population comes back sorted by fitness and its best design is recorded |
| Population.Timeline.Record | Code/Gnowee_Utilities.py:770-800 | the history becomes the recorded one, or stays as it was on error |
| Population.TimelineExample | Code/Gnowee_Utilities.py:770-772 | the first recording of a two-design population holds the fitter design at generation 0 |
| Bounds.NormLos | Code/Gnowee_Utilities.py:911-919 | each lower bound is normalised from its own bound pair |
| Bounds.NormHis | Code/Gnowee_Utilities.py:911-917 | each upper bound is normalised from its own bound pair |
| Bounds.ClampAll | Code/Gnowee_Utilities.py:922-933 | each coordinate is clamped into its own bounds |
| Bounds.NormalisedOrdered | Code/Gnowee_Utilities.py:911-919 | the normalised bounds are ordered except when the lower bound is negative and the upper one below 1E-7, or the lower positive and the upper zero |
| Bounds.NormalisedSigns | Code/Gnowee_Utilities.py:916-919 | the normalised lower bound is never negative, and neither is the upper one when it was not |
| Bounds.NormaliseIdempotent | Code/Gnowee_Utilities.py:911-919 | ordered non-negative bounds are left alone |
| Bounds.ClampInRange | Code/Gnowee_Utilities.py:922-933 | clamping below the lower bound gives the lower bound, above the upper the upper, and leaves values in range alone |
| Bounds.BoundedInRange | Code/Gnowee_Utilities.py:907-933 | with ordered normalised bounds every result coordinate lies in them, and coordinates already in them are unchanged |
| Bounds.BoundedNonNegative | Code/Gnowee_Utilities.py:916-933 | with an upper bound that is not negative the result is not negative |
| Bounds.SimpleBounds | Code/Gnowee_Utilities.py:881-939 | mismatched lengths are an AssertionError that changes nothing; otherwise the bounds are normalised in place and the designs clamped into them |
| Bounds.RetreatFrom | Code/Gnowee_Utilities.py:858-873 | a coordinate that settles on the halve-and-retreat or revert rungs settles inside its bounds |
| Bounds.RetreatInBounds | Code/Gnowee_Utilities.py:858 | a coordinate already in bounds is left untouched |
| Bounds.RetreatStep | Code/Gnowee_Utilities.py:870-873 | rungs 0-4 halve the step and move back by it |
| Bounds.RevertStep | Code/Gnowee_Utilities.py:867-869 | rung 5 moves to the parent's value |
| Bounds.ClampRung | Code/Gnowee_Utilities.py:862-866 | the clamp rung leaves the coordinate and its upper bound non-negative and keeps earlier coordinates non-negative |
| Bounds.HalveAndRetreat | Code/Gnowee_Utilities.py:870-873 | one of rungs 0-4 halves coordinate i's step and moves it back by it, changing no other coordinate or step |
| Bounds.Revert | Code/Gnowee_Utilities.py:867-869 | reverting changes only coordinate i, to the parent's value |
| Bounds.Retreats | Code/Gnowee_Utilities.py:858-873 | the first six rungs change only coordinate i and its step, and stopping early means it is in bounds |
| Bounds.Ladder | Code/Gnowee_Utilities.py:856-876 | a coordinate settles in bounds or the run stops; one that settles by retreat or revert takes that value and step and changes nothing else |
| Bounds.RejectionBounds | Code/Gnowee_Utilities.py:820-878 | mismatched lengths are an AssertionError; on success every coordinate and upper bound is non-negative; when every coordinate settles by retreat or revert, the run succeeds exactly when all settled values are non-negative, a negative one stops the program, and the designs and steps become the settled ones |
| Sampling.OrderFrom | Code/SamplingMethods.py:357-360 | the loop stops at the least order whose column count reaches the dimension |
| Sampling.Params | Code/SamplingMethods.py:338-362 | the loop returns the order, the run length 2^(m-1) and the surplus of columns the closed form gives |
| Sampling.ParamsMinimal | Code/SamplingMethods.py:350-362 | the order is at least 4 and the least with enough columns, q is 2^(m-1), and the surplus is the column count minus the dimension |
| Sampling.ParamsRanges | Code/SamplingMethods.py:338-362 | dimensions 2-7, 8-11, 12-16, 17-22 and 23-29 get orders 4 to 8 with 8 to 128 runs |
| Sampling.ColumnsTable | Code/SamplingMethods.py:359 | orders 4 to 8 give 7, 11, 16, 22 and 29 columns |
| Sampling.CdrPermutationsAsWritten | Code/SamplingMethods.py:376-523 | dimensions outside 2..29 are an AssertionError; otherwise the tables as printed |
| Sampling.CdrPermutations | Code/SamplingMethods.py:376-523 | dimensions outside 2..29 are an AssertionError; otherwise the corrected tables |
| Sampling.LevelSet | Code/SamplingMethods.py:278-279 | the levels 1..q are q distinct values |
| Sampling.SampleCovers | Code/SamplingMethods.py:82 | a configuration of q distinct draws from range(q) includes 0, so it is always shifted to 1..q |
| Sampling.LevelsDistinct | Code/SamplingMethods.py:392-523 | a configuration holding each level once has no repeats |
| Sampling.LevelsWithin | Code/SamplingMethods.py:392-523 | a configuration holding each level once lies within 1..q |
| Sampling.Conf8Levels | Code/SamplingMethods.py:393-398 | Cioppa's 8-run configuration holds each level once |
| Sampling.Conf16Levels | Code/SamplingMethods.py:403-408 | the 16-run configuration holds each level once |
| Sampling.Conf32Levels | Code/SamplingMethods.py:410-421 | the 32-run configuration holds each level once |
| Sampling.Conf64Levels | Code/SamplingMethods.py:423-450 | the corrected 64-run configuration holds each level once |
| Sampling.Conf128Levels | Code/SamplingMethods.py:452-515 | the corrected 128-run configuration holds each level once |
| Sampling.Conf64AsWrittenRepeats | Code/SamplingMethods.py:423-426 | the printed 64-run configuration holds 2 at positions 16 and 50 and so is not a permutation of the levels |
| Sampling.Conf128AsWrittenRepeats | Code/SamplingMethods.py:452-460 | the printed 128-run configuration holds 141 at position 96 and 6 twice, and so is not a permutation of the levels |
| Sampling.CdrConf | Code/SamplingMethods.py:376-523 | for every supported dimension the corrected configuration is a permutation of 1..q |
| Sampling.RemovalFrom2 | Code/SamplingMethods.py:393-398 | the columns removed for dimensions 2-7 are 7-dim distinct columns of 1..7 |
| Sampling.RemovalFrom8 | Code/SamplingMethods.py:403-408 | the columns removed for dimensions 8-11 are 11-dim distinct columns of 1..11 |
| Sampling.RemovalFrom12 | Code/SamplingMethods.py:410-421 | the columns removed for dimensions 12-16 are 16-dim distinct columns of 1..16 |
| Sampling.RemovalFrom17 | Code/SamplingMethods.py:423-450 | the columns removed for dimensions 17-22 are 22-dim distinct columns of 1..22 |
| Sampling.RemovalFrom23 | Code/SamplingMethods.py:452-515 | the columns removed for dimensions 23-29 are 29-dim distinct columns of 1..29 |
| Sampling.CdrRemoval | Code/SamplingMethods.py:376-523 | for every supported dimension the removal list has exactly the surplus of columns, distinct and within range |
| Nolh.KronIsFlip | Code/SamplingMethods.py:292-300 | the Kronecker product of identities and swaps built for A_i maps row k to row k with its low i bits inverted |
| Nolh.FlipInvolution | Code/SamplingMethods.py:292-300 | each A_i is its own inverse |
| Nolh.Apply | Code/SamplingMethods.py:309-311 | the product of A_b with a configuration of length q picks the entry at the flipped row |
| Nolh.PairsShape | Code/SamplingMethods.py:302-312 | the columns of M are the configuration followed by one column per pair i < j < m, m + (m-1)(m-2)/2 columns in all |
| Nolh.PairAt | Code/SamplingMethods.py:305-312 | the loops fill the column numbered by the pair (i, j) in lexicographic order |
| Nolh.ColumnFlipsEven | Code/SamplingMethods.py:314-320 | the sign flips an even number of times down each column, so every column starts afresh |
| Nolh.SignColumn | Code/SamplingMethods.py:316-320 | column i of S holds the carried sign that flips every 2^(i-1) rows, and nothing else changes |
| Nolh.ProductColumn | Code/SamplingMethods.py:325 | the product column is the entrywise product of columns i and j, and nothing else changes |
| Nolh.SignMatrix | Code/SamplingMethods.py:314-326 | every entry of S is the sign its column's pair gives the row |
| Nolh.PermutedColumn | Code/SamplingMethods.py:308-311 | the column for pair (i, j) holds the configuration permuted by A_j, then by A_i when i > 0, and nothing else changes |
| Nolh.ConfMatrix | Code/SamplingMethods.py:302-312 | every entry of M is the configuration entry its column's permutations select |
| Nolh.Log2OfPow2 | Code/SamplingMethods.py:285 | log2 of 2^k is k |
| Nolh.Order | Code/SamplingMethods.py:284-289 | a configuration length gives an order m of at least 3 exactly with q = 2^(m-1) |
| Nolh.Shift | Code/SamplingMethods.py:278-282 | a zero-based configuration or removal list is moved up by one |
| Nolh.KeptUpTo | Code/SamplingMethods.py:330-332 | the kept columns are those not removed, in increasing order |
| Nolh.TMatrixBounded | Code/SamplingMethods.py:328 | with a configuration in 1..q, T = M * S lies within [-q, q] |
| Nolh.LevelMirror | Code/SamplingMethods.py:334-335 | values x and -x map to levels summing to 1 |
| Nolh.LevelRange | Code/SamplingMethods.py:334-335 | [-q, q] maps into [0, 1] |
| Nolh.Assemble | Code/SamplingMethods.py:334-335 | the design has 2q+1 rows, each of the kept columns |
| Nolh.NolhOf | Code/SamplingMethods.py:248-335 | a successful hypercube has 2q+1 rows |
| Nolh.Nolh | Code/SamplingMethods.py:248-335 | the loops compute the hypercube the definition describes |
| Nolh.NolhErrors | Code/SamplingMethods.py:284-332 | a length that is not a power of two with order at least 3 is a ValueError, and otherwise the only failure is a removal outside the columns, an IndexError |
| Nolh.NolhDesign | Code/SamplingMethods.py:284-335 | a successful hypercube is T of the shifted configuration, restricted to the kept columns and stacked as [T; 0; -T] |
| Nolh.AssembleMiddle | Code/SamplingMethods.py:334-335 | the middle row maps to 0.5 |
| Nolh.AssembleFoldover | Code/SamplingMethods.py:334-335 | rows k and q+1+k sum to 1 |
| Nolh.AssembleWithin | Code/SamplingMethods.py:334-335 | a matrix within [-q, q] gives a design within [0, 1] |
| Nolh.NolhMiddleRow | Code/SamplingMethods.py:334-335 | the middle row of every hypercube is all 0.5 |
| Nolh.NolhFoldover | Code/SamplingMethods.py:334-335 | rows k and q+1+k of every hypercube are mirror images |
| Nolh.NolhWithinUnit | Code/SamplingMethods.py:278-335 | a configuration in 0..q-1 or 1..q gives a design within the unit box |
| Nolh.KeptCount | Code/SamplingMethods.py:330-332 | removing a set of columns below n keeps the other n minus that many |
| Nolh.KeptColumns | Code/SamplingMethods.py:330-332 | removing distinct columns leaves s minus their number |
| Nolh.NolhColumns | Code/SamplingMethods.py:330-335 | with distinct removals the hypercube has s minus their number of columns |
| Nolh.TColumnZero | Code/SamplingMethods.py:303 | column 0 of T is the configuration itself |
| Nolh.NolhFirstColumn | Code/SamplingMethods.py:303-335 | when column 0 is kept, row k of the design starts with the level of configuration entry k |
| Nolh.LevelAbove | Code/SamplingMethods.py:334-335 | a value above q maps above 1 |
| Nolh.NolhHypercube | Code/SamplingMethods.py:248-335 | a hypercube of a configuration in 0..q-1 or 1..q is a unit hypercube: 2q+1 rows of d columns in [0, 1], the middle row 0.5, the halves mirrored |
| InitialSampling.Range | Code/SamplingMethods.py:68-70 | range(lo, hi) is the integers from lo up to hi, none when hi <= lo |
| InitialSampling.Sampled | Code/SamplingMethods.py:71-102 | an error of the hypercube is passed on |
| InitialSampling.RandomRows | Code/SamplingMethods.py:58-62 | the loop fills the n rows the random method defines |
| InitialSampling.Hypercube | Code/SamplingMethods.py:65-103 | the hypercube each nolh method builds; nolh-cdr builds it from the corrected CDR tables (`Sampling.CdrPermutations`, see Findings), not the printed ones |
| InitialSampling.InitialSamples | Code/SamplingMethods.py:30-120 | the sampling the definition describes for each method, with nolh-cdr on the corrected CDR tables (see Findings) |
| InitialSampling.ScaleInBox | Code/SamplingMethods.py:61 | a point of the unit box scales into the box of the bounds |
| InitialSampling.InitialSamplesAsserts | Code/SamplingMethods.py:47-54 | an AssertionError exactly when the bounds differ in length, a hypercube method gets a dimension outside 2..29, or the method is not listed |
| InitialSampling.HypercubeErrors | Code/SamplingMethods.py:65-103 | a hypercube method fails only with a ValueError or an IndexError |
| InitialSampling.RandomSamplesInBox | Code/SamplingMethods.py:58-62 | the random method gives n rows, each a scaled draw inside the box |
| InitialSampling.ScaledRows | Code/SamplingMethods.py:74-75 | a design of rows of the bounds' length scales row by row |
| InitialSampling.ScaledHypercube | Code/SamplingMethods.py:74-75 | a unit hypercube scales to a hypercube sample of the box, its middle row at the box centre and its halves mirrored |
| InitialSampling.OrderOfParams | Code/SamplingMethods.py:67-73 | the run length params returns gives back its order, and the columns cover the dimension plus the surplus |
| InitialSampling.StandardRemoval | Code/SamplingMethods.py:66-73 | the standard method removes the last surplus columns, distinct and in range, leaving dim columns |
| InitialSampling.StandardDesign | Code/SamplingMethods.py:65-76 | the standard method's hypercube is a unit hypercube of dim columns |
| InitialSampling.StandardNolhSamples | Code/SamplingMethods.py:65-76 | nolh gives 2q+1 hypercube samples of the box |
| InitialSampling.CdrDesign | Code/SamplingMethods.py:93-103 | with the corrected tables the nolh-cdr hypercube is a unit hypercube of dim columns |
| InitialSampling.CdrNolhSamples | Code/SamplingMethods.py:93-103 | nolh-cdr gives 2q+1 hypercube samples of the box |
| InitialSampling.PermutedDesign | Code/SamplingMethods.py:79-90 | a random permutation of range(q) with the removal drawn from the hypercube's own columns gives a unit hypercube of dim columns |
| InitialSampling.PermutedNolhSamples | Code/SamplingMethods.py:79-90 | nolh-rp with the removal drawn from the columns gives 2q+1 hypercube samples of the box |
| InitialSampling.PermutedAsWrittenFails | Code/SamplingMethods.py:84 | a removal drawn from range(q-1) that names a column past the last one makes nolh-rp fail with an IndexError |
| InitialSampling.PermutedAsWrittenExample | Code/SamplingMethods.py:84 | in 8 dimensions the draw [14, 0, 1] from range(15) fails |
| InitialSampling.CdrAsWrittenAboveOne | Code/SamplingMethods.py:452-460 | with the printed 128-run table, dimension 29 puts a sample above 1 |
| InitialSampling.CdrAsWrittenDim27Fails | Code/SamplingMethods.py:488-496 | with the printed 126-entry list, dimension 27 is a ValueError |
| InitialSampling.LatinHypercubeSamples | Code/SamplingMethods.py:106-111 | lhc scales each row of the given Latin hypercube into the box |
| LevyFlight.LevyShape | Code/SamplingMethods.py:173-210 | the arguments are checked (0.3 < alpha < 1.99, gamma >= 0, n >= 1, else an AssertionError) and the result is nr rows of nc values when nr > 0, else nc values |
| LevyFlight.TlfCount | Code/SamplingMethods.py:234 | numSamp samples for a positive numSamp, one for -1, and a reshape error otherwise |
| LevyFlight.Cut | Code/SamplingMethods.py:234 | a sample is the magnitude of a Levy value over the cut point, never negative |
| LevyFlight.Tlf | Code/SamplingMethods.py:213-245 | bad Levy arguments are an AssertionError and a bad count a ValueError; otherwise numSamp samples in [0, 1], each the first draw when that was at most 1 and otherwise a later redraw |
| DesignVector.PickAll | Code/Metaheuristics.py:223-250 | the scan only appends to the vector, and takes no NAS entry when the foil position is divided out |
| DesignVector.BuildVector | Code/Metaheuristics.py:221-253 | the loop builds the vector the scan describes |
| DesignVector.Planes | Code/Metaheuristics.py:244-250 | the horizontal planes of the surfaces, in order |
| DesignVector.DeltasOfAbsolute | Code/Metaheuristics.py:244-250 | reading back planes rebuilt from distances gives the distances |
| DesignVector.AbsoluteOfDeltas | Code/Metaheuristics.py:281-285 | rebuilding planes from their distances gives the planes back |
| DesignVector.PickLater | Code/Metaheuristics.py:244-250 | later horizontal planes contribute their distances from the previous plane |
| DesignVector.PickHorizontal | Code/Metaheuristics.py:244-250 | a run of horizontal planes contributes their distances from the base plane |
| DesignVector.RiseStep | Code/Metaheuristics.py:326-335 | a plane below the previous one is moved 0.1 above it when there is room, else onto it; planes never fall |
| DesignVector.WriteOne | Code/Metaheuristics.py:299-335 | writing one surface keeps its name and role, moves only horizontal planes among the plane distances, and places it |
| DesignVector.WriteAll | Code/Metaheuristics.py:299-335 | the write-back keeps the surfaces' number, names and roles, leaves other surfaces alone, and gives rising planes |
| DesignVector.WriteBack | Code/Metaheuristics.py:297-335 | the loop writes the vector back as the definition describes |
| DesignVector.WritePlanes | Code/Metaheuristics.py:326-335 | rising planes are written back unchanged |
| DesignVector.WritePlanesWithin | Code/Metaheuristics.py:1081-1090 | entries within [lo, ceiling] are all written, and the raising step never lifts a plane outside [lo, ceiling] |
| DesignVector.WriteKeepsPlanes | Code/Metaheuristics.py:1081-1090 | horizontal surfaces handed back their own rising planes are left as they are |
| DesignVector.RisingAbove | Code/Metaheuristics.py:1081-1090 | no plane of a rising sequence is below the plane it rises from |
| DesignVector.PlanesOfHorizontal | Code/Metaheuristics.py:976-981 | the planes read from horizontal surfaces are their positions, one for each surface |
| DesignVector.AbsoluteRises | Code/Metaheuristics.py:281-285 | planes rebuilt from non-negative distances rise from the base |
| DesignVector.PlanesRoundTrip | Code/Metaheuristics.py:221-335 | writing back planes rebuilt from non-negative distances and reading the design again gives the distances back |
| DesignVector.PlanesOfWritten | Code/Metaheuristics.py:326-335 | the planes of written surfaces are the written values |
| DesignVector.DeltasWrittenAsPlanes | Code/Metaheuristics.py:1081-1090 | writing the distances [16, 5] as positions does not give back the design's own distances |
| DesignVector.OrderedRadiiPair | Code/Metaheuristics.py:263-267 | each vertical cell's radii are put in order, keeping the pair |
| DesignVector.OrderedRadiiSorted | Code/Metaheuristics.py:263-267 | every vertical cell's radii are ordered and kept, and the other entries are untouched |
| DesignVector.OrderRadii | Code/Metaheuristics.py:263-267 | the loop orders the radii in place; a vertical cell past the vector is an IndexError |
| DesignVector.Cumulated | Code/Metaheuristics.py:281-285 | the running sum exists exactly when the horizontal count indexes the vector |
| DesignVector.Cumulate | Code/Metaheuristics.py:281-285 | the loop turns the horizontal distances into positions in place, as the definition describes |
| DesignVector.CumulateTail | Code/Metaheuristics.py:281-285 | from the first horizontal entry on, each entry becomes the base plus the running sum |
| DesignVector.VertLowerAt | Code/Metaheuristics.py:268-274 | the lower bound of each outer radius is the inner radius when positive, else 1E-7 |
| DesignVector.OrderedRadiiMeetLower | Code/Metaheuristics.py:263-274 | after ordering, every outer radius of at least 1E-7 meets its lower bound |
| DesignVector.HorizLower | Code/Metaheuristics.py:282-286 | the horizontal lower bounds are the base plane, then 1E-7 |
| DesignVector.LevyHorizUpper | Code/Metaheuristics.py:283-287 | each horizontal upper bound is the ceiling less the previous accumulated position |
| DesignVector.MutateHorizUpper | Code/Metaheuristics.py:1035-1040 | each horizontal upper bound is the ceiling less the running sum of the earlier distances |
| DesignVector.HorizUppersDifferByBase | Code/Metaheuristics.py:283-287 | the two operators' horizontal upper bounds differ by the base plane |
| CellSearch.LevyMove | Code/Metaheuristics.py:256-294 | the in-place move equals `LevyMoved`: the radii ordered, the horizontal distances accumulated into planes over the base plane and the result passed through `Rejection_Bounds` with the bounds the loop builds; whatever comes out is not negative |
| CellSearch.LevyMovedInBounds | Code/Metaheuristics.py:256-294 | a moved vector already within its bounds comes out of `Rejection_Bounds` untouched when no entry is negative, and is the negative-child exit otherwise |
| CellSearch.CellLevyOne | Code/Metaheuristics.py:216-335 | a scan error is passed on; otherwise the design is the scanned vector moved by 1/sf times the step row (sf = 0 a ZeroDivisionError, a row of another length a broadcast ValueError) and written back, its surfaces keeping their names and roles with rising planes; it hands on the prev_z its own write-back leaves (reset to 0.0, then the last horizontal plane written, never below any of them) and that write-back's nas_vz |
| CellSearch.FlownAt | Code/Metaheuristics.py:204-338 | iteration k of a run used a valid parent and made its design from that parent's copy with the prev_z and nas_vz iteration k-1 left (none before the first) and left carry[k+1] to iteration k+1 |
| CellSearch.FlightAppend | Code/Metaheuristics.py:216-335 | one iteration appends exactly one design, its parent's copy moved, and extends the run with the prev_z and nas_vz its write-back leaves |
| CellSearch.PickParent | Code/Metaheuristics.py:210-213 | the parent is the first draw not already used, int(u * p) |
| CellSearch.CellLevyFlights | Code/Metaheuristics.py:174-338 | fl outside [0, 1] is an AssertionError; otherwise int(fl*p) distinct valid parent indexes, each new design its parent with only its surfaces moved as `CellLevyOne` says, prev_z and nas_vz carried from each iteration's write-back into the next iteration's scan |
| CellSearch.WriteBackIndexShadowed | Code/Metaheuristics.py:263-301 | with two horizontal cells the write-back reaches its own copy; with one vertical and one horizontal the second iteration writes into the first copy |
| CellSearch.RowsErr | Code/Metaheuristics.py:954-987 | once a parent's scan fails, building rows for more parents fails with the same error |
| CellSearch.BuildRows | Code/Metaheuristics.py:954-987 | one design vector per parent for the first p parents, prev_z carried from each scan into the next; the first failing scan's error otherwise |
| CellSearch.MutatedRow | Code/Metaheuristics.py:1002-1009 | a discovered coordinate moves by r times the difference of the two permuted rows, the others stay |
| CellSearch.MutateBoundedInRange | Code/Metaheuristics.py:1011-1048 | outside the horizontal planes, every entry of a bounded row lies within its normalised bounds, and an entry already within them is kept |
| CellSearch.MutateBound | Code/Metaheuristics.py:1011-1048 | the in-place bounding equals `MutateBounded`: radii ordered, bounds built, distances made planes over the base plane, then `Simple_Bounds` applied with each plane held in [base, ceiling] (corrected, see Findings) |
| CellSearch.PlanesBoundedBefore | Code/Metaheuristics.py:1011-1048 | cumulating the planes leaves every coordinate before them with its own bounds and clamp |
| CellSearch.PlanesBoundedAt | Code/Metaheuristics.py:1033-1034 | every bounded plane lies in [base, ceiling], and a cumulated plane already there is kept (corrected, see Findings) |
| CellSearch.PlanesBoundedKeeps | Code/Metaheuristics.py:1033-1048 | distances of planes that lie in [base, ceiling] are bounded to exactly those planes (corrected, see Findings) |
| CellSearch.MutateBoundedIs | Code/Metaheuristics.py:1011-1048 | a bounded row is the ordered radii clamped to their bounds, with the planes cumulated first when there are any |
| CellSearch.MutateBoundedPlaneAt | Code/Metaheuristics.py:1033-1048 | with 0 <= base <= ceiling every plane of a bounded row lies in [base, ceiling] (corrected, see Findings) |
| CellSearch.MutateBoundedKeepsPlanes | Code/Metaheuristics.py:1033-1048 | a row holding the distances of in-bound planes comes out of the bounding with those same planes (corrected, see Findings) |
| CellSearch.MutatePlanesWritten | Code/Metaheuristics.py:1081-1090 | the write-back of a bounded row writes every horizontal plane, each within [base, ceiling] and each not below the one before (corrected, see Findings) |
| CellSearch.MutateKeepsPlanes | Code/Metaheuristics.py:1081-1090 | an unmoved row of a design whose rising planes lie in [base, ceiling] writes those planes back unchanged (corrected, see Findings) |
| CellSearch.MutatedAt | Code/Metaheuristics.py:1002-1093 | row k of the result is parent k's row moved by the walk, bounded as `MutateBounded` says and written back into parent k (corrected, see Findings) |
| CellSearch.MutateRow | Code/Metaheuristics.py:1002-1093 | one pass of the row loop moves, bounds and writes back design j only, extending the run of mutated designs by that one (corrected, see Findings) |
| CellSearch.Mutate | Code/Metaheuristics.py:928-1094 | the first p parents change only their surfaces, each as `MutatedAt` reads it, keeping names and roles with rising planes; the rest are unchanged (corrected, see Findings) |
| MaterialSearch.IndexOf | Code/Metaheuristics.py:88 | the first position holding the name, or -1 exactly when the list does not hold it |
| MaterialSearch.SortKeepsNames | Code/Metaheuristics.py:114 | sorting the ratio records keeps the names they list |
| MaterialSearch.WalkOf | Code/Metaheuristics.py:81-169 | a draw up to 0.33 walks the library keys, above 0.66 the 14 MeV ratios, between them the 1 MeV ratios; a draw above 1 stops the program |
| MaterialSearch.SetDensity | Code/Metaheuristics.py:103-109 | every cell of the material takes the new density and the others are unchanged |
| MaterialSearch.Wrap | Code/Metaheuristics.py:91 | the stepped index wraps into the key count |
| MaterialSearch.LevyMaterial | Code/Metaheuristics.py:86-97 | no keys divide by zero; otherwise the new position is the wrapped step from the material's index, or from a redraw, and names a material not excluded |
| MaterialSearch.LevyStep | Code/Metaheuristics.py:100-109 | an unmoved layer keeps materials and cells; a moved one takes the new name and its cells take its density, other cells unchanged |
| MaterialSearch.MatlsStep | Code/Metaheuristics.py:86-101 | after each layer, every walked layer holds a material of the catalogue that is not excluded |
| MaterialSearch.CellsStep | Code/Metaheuristics.py:100-109 | after each layer, every cell of a walked layer carries its material's density |
| MaterialSearch.UpToEdit | Code/Metaheuristics.py:86-109 | after the last layer the design is the walked edit of its parent |
| MaterialSearch.LevyMaterials | Code/Metaheuristics.py:86-109 | no keys with a layer to walk is an error; otherwise the design keeps its fixed materials and fill, its walked layers hold catalogue materials not excluded, and each cell carries its layer's density |
| MaterialSearch.MaxMatls | Code/Metaheuristics.py:70 | the longest material list of the population |
| MaterialSearch.LevyEditWiden | Code/Metaheuristics.py:84-166 | a walk through the ratio names is also a walk through the larger catalogue |
| MaterialSearch.WalkNames | Code/Metaheuristics.py:84-145 | the keys, or the ratio records sorted in place by the chosen energy, their names in order |
| MaterialSearch.LevyOne | Code/Metaheuristics.py:77-169 | a draw above 1 stops the program; the ratio list stays a permutation of itself; the design is a walked edit of its parent |
| MaterialSearch.MatLevyFlights | Code/Metaheuristics.py:31-171 | fl outside [0, 1] is an AssertionError, an empty population a ValueError and sf = 0 the ZeroDivisionError of the debug line; otherwise int(fl*p) designs, each a walked edit of the parent at its position |
| MaterialSearch.RatioOf | Code/Metaheuristics.py:393 | the ratio record of a name, none exactly when no record has it |
| MaterialSearch.LayerRatios | Code/Metaheuristics.py:387-393 | every layer cell's material index must exist (else an IndexError), and gives its material and ratio record |
| MaterialSearch.BlendBetween | Code/Metaheuristics.py:415 | the blended ratio lies between the two ratios it blends |
| MaterialSearch.FirstAtLeast | Code/Metaheuristics.py:417-419 | the scan stops at the first record whose ratio reaches the target |
| MaterialSearch.Nearest | Code/Metaheuristics.py:416-426 | the search succeeds exactly when some record reaches the target (else an IndexError) and picks the nearer of it and the one before |
| MaterialSearch.NearestClosest | Code/Metaheuristics.py:416-426 | on sorted records the pick is at least as close to the target as any record |
| MaterialSearch.BlendReached | Code/Metaheuristics.py:415-419 | a blend of two listed ratios is always reached by the scan |
| MaterialSearch.SkipExcluded | Code/Metaheuristics.py:444-450 | the pick moves forward, wrapping to the start, to the first material not excluded; it never ends when every material is excluded |
| MaterialSearch.EliteMaterial | Code/Metaheuristics.py:413-450 | the new material is a listed material not excluded, and the records stay a permutation of themselves |
| MaterialSearch.EliteMaterials | Code/Metaheuristics.py:412-450 | one new material per layer, each listed and not excluded |
| MaterialSearch.WriteElite | Code/Metaheuristics.py:455-473 | only materials and cells change, the fixed materials stay, and every layer cell takes its new material and density |
| MaterialSearch.PartnerIndex | Code/Metaheuristics.py:381-383 | the partner is never the best design, int(u*p*fe) or 1 |
| MaterialSearch.EliteCrossover | Code/Metaheuristics.py:341-480 | fe outside [0, 1] is an AssertionError; otherwise one design: the best design rewritten with blended materials under the partner's identifier and particle count |
| MaterialSearch.LayersIn | Code/Metaheuristics.py:518-520 | the layers are cells of the design |
| MaterialSearch.ArgSortPositions | Code/Metaheuristics.py:532 | the argsort lists every position exactly once |
| MaterialSearch.RunEndBreak | Code/Metaheuristics.py:533-540 | the scan stops at the first break in the run of consecutive ranks, or gives -1 when the run reaches the end |
| MaterialSearch.InversionPoint | Code/Metaheuristics.py:531-540 | no layers is an IndexError; otherwise the end of the run |
| MaterialSearch.ReversedPermutes | Code/Metaheuristics.py:564 | reversing keeps the elements |
| MaterialSearch.Inversion | Code/Metaheuristics.py:544-577 | no inversion exactly when the run reaches the end or the highest rank; otherwise the layer materials are a permutation of the old ones |
| MaterialSearch.SliceKeepsFill | Code/Metaheuristics.py:553 | assigning the layer materials keeps the fixed materials and the fill |
| MaterialSearch.Redensify | Code/Metaheuristics.py:557-562 | every layer cell takes its position's material and density |
| MaterialSearch.StartOf | Code/Metaheuristics.py:531 | the starting layer is a valid position |
| MaterialSearch.InvertedPermutes | Code/Metaheuristics.py:544-575 | an inverted design keeps its fixed materials and fill, and its layer materials are a permutation of the old ones |
| MaterialSearch.InvertOne | Code/Metaheuristics.py:510-577 | a design without layers is an IndexError; otherwise it is inverted or dropped, dropped exactly when no inversion applies |
| MaterialSearch.InvertStep | Code/Metaheuristics.py:510-577 | design i is kept inverted or dropped as its draws decide |
| MaterialSearch.Select | Code/Metaheuristics.py:576-577 | the output holds, in order, the inverted designs and skips the dropped ones |
| MaterialSearch.PartialInversion | Code/Metaheuristics.py:483-579 | the output lists, in order, the inversions of the first p designs that are not dropped |
| LayerSearch.PositionsSpec | Code/Metaheuristics.py:608-610 | the collected positions are increasing, of the wanted kinds, and include every such cell |
| LayerSearch.PositionsFound | Code/Metaheuristics.py:608-610 | a cell of a wanted kind is in the collected list, at the index given by the positions before it |
| LayerSearch.CollectPositions | Code/Metaheuristics.py:608-610 | the loop appends the positions of the wanted cells to the list it is given |
| LayerSearch.LastNamed | Code/Metaheuristics.py:630-636 | the plane of the last surface with that number, none exactly when no surface has it |
| LayerSearch.LastNamedAt | Code/Metaheuristics.py:630-636 | the lookup gives the plane of the last surface with that number |
| LayerSearch.LookedThree | Code/Metaheuristics.py:630-636 | for three distinct numbers that are all present the lookup gives their last planes |
| LayerSearch.FindPlanes | Code/Metaheuristics.py:630-636 | the lookup loop computes the planes the definition describes |
| LayerSearch.Exchanged | Code/Metaheuristics.py:615-624 | the two cells trade everything but their names and bodies; the other cells stay |
| LayerSearch.ExchangedTwice | Code/Metaheuristics.py:615-652 | exchanging twice gives the cells back |
| LayerSearch.TradedPlanes | Code/Metaheuristics.py:638-641 | the two layers trade thicknesses: the second plane moves to z_1 plus the second thickness and the third to that plus the first |
| LayerSearch.MovePlanes | Code/Metaheuristics.py:643-647 | the loop moves the planes n_2 and n_3 as the definition describes |
| LayerSearch.TwoOptPick | Code/Metaheuristics.py:614-617 | the pair picked is two listed positions, or an IndexError |
| LayerSearch.TwoOptCells | Code/Metaheuristics.py:608-617 | the pair picked from a design's own horizontal positions names two of its cells |
| LayerSearch.TwoOptPickAdjacent | Code/Metaheuristics.py:608-617 | with at least three horizontal cells the pick is two horizontal cells with none between them, the second not the last |
| LayerSearch.TwoOptStaleIds | Code/Metaheuristics.py:602-617 | with the positions kept from the previous parent, the second iteration of a four-layer population picks positions 3 and 0, which are not adjacent |
| LayerSearch.TwoOptStep | Code/Metaheuristics.py:604-652 | one iteration keeps the design's identity, materials, number of cells and surface names |
| LayerSearch.TwoOptOne | Code/Metaheuristics.py:604-652 | the loop body computes the iteration the definition describes |
| LayerSearch.TwoOptRunStops | Code/Metaheuristics.py:604-652 | once an iteration fails, the run has failed with the same error |
| LayerSearch.TwoOptRun | Code/Metaheuristics.py:604-652 | a successful run of k iterations gives k copies, each keeping its parent's identity and number of cells |
| LayerSearch.TwoOpt | Code/Metaheuristics.py:582-656 | the method returns the run of int(fe*p) iterations |
| LayerSearch.TwoOptSwapsLayers | Code/Metaheuristics.py:614-652 | two adjacent horizontal layers trade materials and thicknesses and keep their names and bodies |
| LayerSearch.TradeSwapsLayers | Code/Metaheuristics.py:615-652 | the trade exchanges the cells, changes nothing but cells and planes, and moves plane n_2 and n_3 as TradedPlanes says |
| LayerSearch.Clamped | Code/Metaheuristics.py:719-727 | each surface is pushed into the bracket of the copied layer, and changed exactly when it was outside it |
| LayerSearch.ClampPlanes | Code/Metaheuristics.py:719-727 | the loop clamps the planes as the definition describes |
| LayerSearch.CopiedPlanes | Code/Metaheuristics.py:732-734 | copying the vertical cell's surfaces fails exactly when one lies past the receiving list; otherwise each surface is kept or copied |
| LayerSearch.CopyPlanes | Code/Metaheuristics.py:732-734 | the loop copies the surfaces as the definition describes |
| LayerSearch.CopyLayer | Code/Metaheuristics.py:700-706 | fails exactly when the cell or its material is missing from either design; otherwise the receiving design takes the donor cell and the donor's material in that material's slot, and nothing else changes |
| LayerSearch.FitPlanes | Code/Metaheuristics.py:710-734 | only surfaces change, each moved or copied, and for a horizontal layer every surface is bracketed |
| LayerSearch.CrossStep | Code/Metaheuristics.py:699-734 | the copy of x[rand] equals it except for cell c and the material that cell names, both taken from x[i]; for a horizontal cell every plane lies between x[i]'s two looked-up planes of that layer, for a vertical cell exactly the surfaces named by the layer come from x[i], and any other cell keeps x[rand]'s surfaces |
| LayerSearch.CrossOne | Code/Metaheuristics.py:699-734 | the loop body computes the iteration the definition describes |
| LayerSearch.LayerPositionsSpec | Code/Metaheuristics.py:694-696 | every position in the list accumulated over x[0..n-1] is a layer cell of one of those designs |
| LayerSearch.CrossedAt | Code/Metaheuristics.py:659-735 | in a crossover run, copy k is CrossStep applied to the drawn design x[used[k]] with x[k]'s cell at a drawn layer position |
| LayerSearch.CrossedCopies | Code/Metaheuristics.py:699-734 | copy k keeps the identity of the drawn design x[used[k]] and differs from it by exactly x[k]'s crossed cell and material; for a horizontal cell every plane of the copy lies between x[k]'s two planes of that layer |
| LayerSearch.CrossAppend | Code/Metaheuristics.py:685-734 | one iteration of the crossover loop extends the run by the drawn design crossed with the current design's cell |
| LayerSearch.DrawDonor | Code/Metaheuristics.py:685-687 | the draw is the first one naming a different, unused design |
| LayerSearch.Crossover | Code/Metaheuristics.py:659-735 | int(fe*p) copies of distinct designs x[rand], none sharing x[i]'s identity, the copy differing from x[rand] in at most one cell and one material, both taken from x[i], and in surfaces that are moved or copied from x[i]; copy i is a copy of x[used[i]] into which CrossStep crosses the cell of x[i] at a layer position drawn from x[0..i] |
| LayerSearch.Reorder | Code/Metaheuristics.py:790-823 | the statements of a branch, in order, compute the replay |
| LayerSearch.StepsInOrder | Code/Metaheuristics.py:790-823 | the steps of a branch place, at each position, the layer the window maps to it |
| LayerSearch.WindowsPermute | Code/Metaheuristics.py:794-820 | each window reorders the five layers after rand, each once |
| LayerSearch.SrcPermutes | Code/Metaheuristics.py:790-823 | the reordering maps positions 0..n-1 one to one onto themselves |
| LayerSearch.ReplayRebuilds | Code/Metaheuristics.py:790-823 | replaying the steps rebuilds the planes from the reordered thicknesses |
| LayerSearch.PlaneKept | Code/Metaheuristics.py:790-823 | planes outside the window stay where they were |
| LayerSearch.WindowTop | Code/Metaheuristics.py:794-803 | the plane above the window comes back to where it was |
| LayerSearch.LayersAt | Code/Metaheuristics.py:764-767 | the k-th copied cell is the cell at the k-th horizontal position |
| LayerSearch.SurfsAt | Code/Metaheuristics.py:770-773 | the k-th copied surface is the k-th "horiz" surface |
| LayerSearch.CollectLayers | Code/Metaheuristics.py:764-767 | the loop copies the horizontal cells |
| LayerSearch.CollectSurfs | Code/Metaheuristics.py:770-773 | the loop copies the "horiz" surfaces |
| LayerSearch.MeasureThicknesses | Code/Metaheuristics.py:778-780 | the loop measures each layer's thickness |
| LayerSearch.WriteLayers | Code/Metaheuristics.py:830-836 | the loop writes the reordered materials back |
| LayerSearch.WritePlanes | Code/Metaheuristics.py:839-844 | the loop writes the rebuilt planes back |
| LayerSearch.ThreeOptStep | Code/Metaheuristics.py:761-844 | one iteration changes only cells and surfaces and keeps their numbers |
| LayerSearch.ThreeOptOne | Code/Metaheuristics.py:761-844 | the loop body computes the iteration the definition describes |
| LayerSearch.ThreeOptRunStops | Code/Metaheuristics.py:760-845 | once an iteration fails, the run has failed with the same error |
| LayerSearch.ThreeOptRunNext | Code/Metaheuristics.py:760-845 | a successful iteration extends the run by its copy |
| LayerSearch.ThreeOptRunFails | Code/Metaheuristics.py:760-845 | a failed iteration fails the run with its error |
| LayerSearch.ThreeOpt | Code/Metaheuristics.py:738-847 | the method returns the run of p iterations |
| LayerSearch.MovedNormal | Code/Metaheuristics.py:784-823 | with six or more layers the reordering succeeds and rebuilds the planes |
| LayerSearch.ThreeOptWrites | Code/Metaheuristics.py:784-844 | with six or more layers the iteration succeeds, writing back the reordered materials and rebuilt planes |
| LayerSearch.ThreeOptReordersLayers | Code/Metaheuristics.py:784-836 | every horizontal cell takes the material and density of the layer the window maps to it, and nothing else changes |
| LayerSearch.ThreeOptPlanesRebuilt | Code/Metaheuristics.py:764-844 | with six or more layers and one more "horiz" plane the reordering succeeds and the planes it writes are rebuilt from the reordered thicknesses |
| LayerSearch.ReplacedRebuilt | Code/Metaheuristics.py:790-844 | the written-back surfaces keep every non-"horiz" surface, keep the first plane and space each next plane by the thickness of the layer placed there |
| LayerSearch.ThreeOptMovesOnlyPlanes | Code/Metaheuristics.py:839-844 | only the "horiz" surfaces change, and only their planes |
| LayerSearch.ThreeOptRebuildsPlanes | Code/Metaheuristics.py:790-844 | the first plane stays and each next plane is the previous one plus the thickness of the layer placed there |
| LayerSearch.ThreeOptKeepsPlanes | Code/Metaheuristics.py:790-844 | planes below and above the window stay where they were |
| CellDiscard.TotalsShape | Code/Metaheuristics.py:876 | the running totals of the ranks 1..n are n non-decreasing values ending above zero |
| CellDiscard.TotalsWidth | Code/Metaheuristics.py:876 | parent i owns an interval of the totals of width i + 1, so better-ranked parents are drawn more often |
| CellDiscard.WeightedIndexInRange | Code/Metaheuristics.py:879 | a draw in [0, 1) among n > 0 parents names a parent |
| CellDiscard.WeightedIndexInterval | Code/Metaheuristics.py:879 | a draw names parent i exactly when its scaled value falls in parent i's interval of width i + 1 |
| CellDiscard.Redraw | Code/Metaheuristics.py:881-882 | the redraw ends on a parent not yet used, the one the last draw it consumed names |
| CellDiscard.RedrawSkipsUsed | Code/Metaheuristics.py:881-882 | every draw the redraw skips names a parent already used |
| CellDiscard.FillIndexAsWrittenMisses | Code/Metaheuristics.py:902 | when the fill key appears only at the end of two or more keys, the number written is its 0-based position, which names the key before it |
| CellDiscard.FillNumber | Code/Metaheuristics.py:902 | the 1-based number of the first key equal to the fill key names the fill |
| CellDiscard.CloseGap | Code/Metaheuristics.py:913-921 | the loop closes the surfaces as the definition describes |
| CellDiscard.ClosedGapCloses | Code/Metaheuristics.py:914-921 | the loop fails exactly when the last surface carries the number; otherwise every surface with the number and the one after it get height 0.0001 and nothing else changes |
| CellDiscard.FillLastFills | Code/Metaheuristics.py:901-903 | the fill fails exactly when there is no fill key or the library lacks it; otherwise only the chosen cell changes, taking the fill's number and density |
| CellDiscard.TakeNextTakes | Code/Metaheuristics.py:906-910 | a horizontal cell takes the material and density of the next layer cell, nothing else changes, and the debug lines' lookups fail on a bad material number |
| CellDiscard.DiscardStep | Code/Metaheuristics.py:887-923 | a discard keeps the design's identity and materials, its number of cells and its surface names, and fails on a design without layer cells (corrected, see Findings) |
| CellDiscard.FillLastCell | Code/Metaheuristics.py:901-904 | the in-place fill computes the fill the definition describes (corrected, see Findings) |
| CellDiscard.TakeNextCell | Code/Metaheuristics.py:906-910 | the in-place take-over computes the change the definition describes |
| CellDiscard.CloseNextCell | Code/Metaheuristics.py:912-921 | the in-place closing computes the change the definition describes |
| CellDiscard.DrawInRange | Code/Metaheuristics.py:896 | int(random() * n) is an index below n |
| CellDiscard.LayerRank | Code/Metaheuristics.py:890-893 | every layer cell is listed, at its rank among the layer cells |
| CellDiscard.LayerChoice | Code/Metaheuristics.py:890-896 | the chosen entry is a layer cell, and the entry after it is the next layer cell |
| CellDiscard.DiscardFillsLast | Code/Metaheuristics.py:901-903 | a draw of the last entry fills the last layer cell |
| CellDiscard.DiscardTakesNext | Code/Metaheuristics.py:906-910 | a horizontal cell that is not the last layer cell takes over the next layer cell's material |
| CellDiscard.DiscardClosesNext | Code/Metaheuristics.py:912-921 | a vertical cell that is not the last layer cell closes the surfaces numbered by the next layer cell |
| CellDiscard.DiscardOne | Code/Metaheuristics.py:887-923 | the loop body computes the discard the definition describes (corrected, see Findings) |
| CellDiscard.DiscardIter | Code/Metaheuristics.py:879-884 | an iteration picks a parent not yet used and consumes at least two draws (corrected, see Findings) |
| CellDiscard.DiscardRun | Code/Metaheuristics.py:872-925 | k successful iterations give k copies of k distinct parents (corrected, see Findings) |
| CellDiscard.DistinctBelow | Code/Metaheuristics.py:881-884 | a list of distinct parent indexes below n has at most n entries |
| CellDiscard.DiscardRunFitsParents | Code/Metaheuristics.py:878-884 | a successful run never asks for more copies than there are parents |
| CellDiscard.DiscardRunStops | Code/Metaheuristics.py:878-925 | once an iteration fails, the run has failed with the same error |
| CellDiscard.DrawParent | Code/Metaheuristics.py:876-879 | next(weights) on the rank weights gives the weighted index |
| CellDiscard.RedrawFrom | Code/Metaheuristics.py:881-882 | the redraw loop on the generator computes the redraw the definition describes |
| CellDiscard.DiscardIteration | Code/Metaheuristics.py:879-923 | the loop body on the generator computes the iteration the definition describes (corrected, see Findings) |
| CellDiscard.DiscardCells | Code/Metaheuristics.py:850-925 | the method returns the copies of the run of int(fd*p) iterations, and fails with its error (corrected, see Findings) |
| Coeus.ScheduleOperators | Code/Coeus.py:376-426 | 2-opt runs exactly when max_horiz >= 4, 3-opt exactly when max_horiz >= 6, and the discard always closes the generation |
| Coeus.ScheduleGenerations | Code/Coeus.py:376-426 | only the discard step advances the generation, by exactly one per pass |
| Coeus.GenerationCounts | Code/Coeus.py:128-140 | the steps keep the timeline non-empty and improving, and the last event adds up every generation and evaluation the steps report |
| Coeus.RunGeneration | Code/Coeus.py:128-140 | running the steps on the history object leaves the timeline the generation describes, or fails with its error |
| Coeus.StepsFail | Code/Coeus.py:128-140 | once a step fails, the whole generation fails with the same error |
| Coeus.RecordedAsWritten | Code/Coeus.py:128-138 | as written, a step that printed designs keeps the timeline as it was, and one that printed none fails: a division by zero under MCNP, `rr` given twice otherwise |
| Coeus.RecordedAsWrittenStalls | Code/Coeus.py:128-140 | as written, an operator that printed a design leaves the timeline as it was where the intended update advances the generation by one, and one that printed none fails |
| Coeus.ConvergenceTest | Code/Coeus.py:429-445 | the test fails on an empty timeline, on a single event past the stall limit and when the optimal fitness is zero; when it succeeds the run has converged exactly when it had already, has stalled, or is within ot of the optimal fitness |
| Coeus.Generations | Code/Coeus.py:370-445 | the loop stops with the loop test false, having added one generation per pass, at most one pass per generation up to gm and per outcome given |

## Left out

- Transport runs, job scheduling, threads, subprocesses, Slurm, `pp` and file I/O (`Run_Transport*`, `Cmd_Thread`, `FuncThread*`, `Run_CmdLine`, `Build_Batch`, `Timeline.write`, `Meta_Stats.write`, file copies): they are I/O and concurrency. Their results enter the model as parameters, for example the tallies, the fitness values and the best design each operator kept.
- Logging: every debug line is dropped. Where a debug line's formatting indexes a list (`cell_ids[rand]`, `matls[m-1]`) or divides (`1.0/S.sf` in `Mat_Levy_Flights`, Code/Metaheuristics.py:72), the error it would raise is kept.
- Numerics of `Levy`, `Levy_Function` and `TLF`: the Gamma functions, normal draws and `quad` are floating-point and foreign calls. Only their preconditions and output shapes are modelled, and the steps are parameters.
- The `lhc` sampling mode calls `DOE.lhs`, a foreign library. Only the shape and scaling of its output are modelled.
- Random draws are parameters. A redraw loop that never ends in the source is reported as `DrawsExhausted` once its list of draws runs out. An example is `Discard_Cells` asked for more copies than there are parents. A material-exclusion loop that no draw can end, because every candidate material is excluded, is reported as `Diverges`.
- Deck and geometry construction: `init_geom`, `fin_geom`, `Print_MCNP_Input`, `read_geom`, `Read_MCNP_Output`, the `Parent` geometry builder (Code/Gnowee_Utilities.py:326-559), ADVANTG file writing and every `__repr__`/`__str__`. They depend on trigonometry, file formats and float formatting. Designs are taken as already built.
- pyne-backed code (`Build_Matlib`, `Calc_Moderating_Ratio`): these are foreign library calls. Moderating ratios and the material library enter as parameters.
- `Pop_Update`'s re-run of transport for escalated designs, with its printing and copying (Code/Gnowee_Utilities.py:697-716): this is I/O. The escalated particle counts are modelled.
- `Timeline.update` uses `path` before assigning it and has an unbalanced parenthesis (Code/Gnowee_Utilities.py:766-767). Only the recording of events (lines 770-800) is modelled.
- The `isinstance` assertions of `Event` (Code/Utilities.py:584-586) hold by the field types and are not modelled as errors.
- LayerSearch.Crossover: the list `cell_ids`, which grows across iterations (Code/Metaheuristics.py:694-696), is modelled as written. The contract (`CrossedAll`) states that copy i is a copy of the design x[used[i]] into which `CrossStep` crosses the cell of x[i] at a position drawn from the layer positions of x[0..i], and `CrossedCopies` gives what that crossing copies. A position that belongs to an earlier design than x[i] is used as the source uses it and is not flagged.
- Coeus.py:
  - the global-state orchestration;
  - the weight-window map update;
  - the printing of transport inputs;
  - the undefined `modRat`;
  - the partial-inversion run before the loop: its history update enters as the initial timeline of `Coeus.Generations`;
  - Code/Coeus_local.py, which duplicates the loop.
- Files that do not parse: Code/ObjectiveFunctions.py, Code/Objective_Functions.py, Code/UserInputs.py, ADVANTG/Read_ADVANTG.py and the INTERFACE example. They cannot run as written and are not part of this model.
- Code/Gnowee_Utilities.py does not parse either: `Timeline.update` has an unbalanced parenthesis at line 767, so the module cannot be imported as written. The model reads line 767 with the parenthesis balanced; everything else in the module (`Parent`, `GnoweeSettings`, `Calc_Fitness`, `Pop_Update`, `Timeline`) is modelled from the text as it stands.
- Code/Constraints.py does not parse under Python 2 either: line 70 passes `print(self)` as an argument, and `print` is a statement there (the module does not import `print_function`). Under Python 3 that call would reach `__str__`, which reads the name of the None handle (line 93) and raises AttributeError. The model reads line 70 as a log call with no effect, so `Constraints.Constraints.New` succeeds for a known or absent method name; `Constraints.HandleAsWritten` keeps the None handle that lines 58-59 store.
- ObjectiveFunction.ObjectiveFunction.RelativeLeastSquares: requires non-zero objective values and, when there is at least one, a non-zero sum of them. numpy would give `inf` or `nan` there instead of an error. An empty candidate with an empty objective is allowed and scores 0.0, as numpy's sum of an empty array does.
- Utilities.RelativeLeastSquares: requires non-zero observations when the lengths match. numpy would give `inf` or `nan` there, which real arithmetic cannot represent; a length mismatch, a short list and a scan off the front of the list are modelled as the errors the source raises.
- Bounds.SimpleBounds: with both bounds negative the source returns a value outside the bounds. `Bounds.NormalisedOrdered` states when this happens, and the model keeps the source's behaviour, since no caller passes such bounds.
- ObjectiveFunction.ObjectiveFunction.constructor: requires a method name in `_FUNC_DICT`, because a Dafny constructor cannot fail. `ObjectiveFunction.ObjectiveFunction.New` is the construction as called, with the KeyError of `set_obj_func` for any other name.
- Constraints.Constraints.constructor: requires a method name in `_FUNC_DICT`, for the same reason. `Constraints.Constraints.New` is the construction as called, with the KeyError of `set_constraint_func` for any other name.
- Utilities.ToNormDiff: requires non-zero energy widths and a non-zero total. numpy gives `inf` or `nan` there, which real arithmetic cannot represent.
- LevyFlight.Tlf: requires a non-zero cut point. numpy's division by zero gives `inf`, whose redraws never end, or `nan`, which is returned as is; real arithmetic represents neither.
- `Strip`, `Lower` and `Tokens` know only the ASCII blanks and letters. Python 2 `str` methods on byte strings behave the same way; unicode strings are not modelled.
- `Timeline.__init__`'s default `tline=[]` is one list shared by every Timeline built without an argument (Code/Gnowee_Utilities.py:739-740). The model gives each new Timeline its own empty history, which matches the source only when one default Timeline exists at a time, as in `Coeus.py`.
- Nolh.Order: the source computes the order as `math.log(q, 2) + 1` in floating point (Code/SamplingMethods.py:285), which may be inexact for large q. The model uses the exact base-2 logarithm of a power of two.
- CellSearch.Mutate: `MutatedAt` states each row's write-back with some nas_vz, not which one: the value the row before it left is carried in the code (`MutateRow`) but not named in the contract.

## Findings

| source | as written | input that shows it | evidently intended | confidence | as-written member | corrected member |
|---|---|---|---|---|---|---|
| Code/SamplingMethods.py:423-426 | the 64-run CDR configuration lists 2 twice and has no 32 | the printed table: 2 at positions 16 and 50 | a permutation of 1..64, with the second 2 read as 32 | not executed | Sampling.Conf64AsWrittenRepeats | Sampling.CdrConf |
| Code/SamplingMethods.py:452-460 | the 128-run configuration lists 141 and has 6 twice, and lacks 41 and 67 | the printed table at positions 96, 39 and 126; in dimension 29 NOLH puts a sample above 1 | a permutation of 1..128, with 141 read as 41 and the second 6 as 67 | not executed | InitialSampling.CdrAsWrittenAboveOne | Sampling.CdrPermutations, InitialSampling.CdrDesign |
| Code/SamplingMethods.py:488-496 | the dimension-27 configuration has 126 entries | dim = 27 gives a ValueError in NOLH | the full corrected 128-run configuration | not executed | InitialSampling.CdrAsWrittenDim27Fails | Sampling.CdrPermutations, InitialSampling.CdrDesign |
| Code/SamplingMethods.py:84 | nolh-rp removes columns drawn from range(q-1), but the hypercube has only s columns | 8 dimensions with the draw [14, 0, 1] from range(15) raise an IndexError | draw the removed columns from the hypercube's own columns | not executed | InitialSampling.PermutedAsWrittenFails, InitialSampling.PermutedAsWrittenExample | InitialSampling.PermutedDesign, InitialSampling.PermutedNolhSamples |
| Code/Constraints.py:58-61 | the constructor stores the return value of `set_constraint_func`, which is None | any named constraint method, such as "less_or_equal" | the constraint function of that name | not executed | Constraints.HandleAsWritten | Constraints.HandleIntended |
| Code/ETA_Utilities.py:149-152 | the fissile-foil search compares (index, name) pairs from `enumerate` with a name | any fissile material: the index stays -1, so min_fiss is divided by the last TOAD foil's thickness | divide by the thickness of the foil holding the fissile material | not executed | EtaUtilities.ConstructAsWritten | EtaUtilities.Construct |
| Code/ETA_Utilities.py:399 | `read_constraints` divides min_fiss again, even when the file does not set it | a keyword file without a min_fiss line | divide only a newly read min_fiss | not executed | EtaUtilities.Read, EtaUtilities.ReadDividesTwice | EtaUtilities.ReadIntended, EtaUtilities.ReadIntendedKeeps |
| Code/MCNP_Utilities.py:310-334 | in the list form of `add_surf`/`add_cell`, the duplicate warning formats `adds.name` on the list | a list holding a surface that is already present raises an AttributeError | skip the duplicate with a warning, as the single form does | not executed | McnpGeometry.AppendListAsWritten, McnpGeometry.DuplicateInListFails | McnpGeometry.AppendNew |
| Code/Metaheuristics.py:1081-1090 | `Mutate` bounds its horizontal distances with plane bounds (the first within [base, ceiling]) and writes those distances back as plane positions | two layers at 20 and 25 with distances [16, 5] are written to 16 and 16.1; with base 15, a lone unmoved plane at 20 (distance 5) is clamped to 15 and written at 15 | make the distances planes over the base plane before bounding, hold each plane in [base, ceiling] and write planes back: the corrected `MutateBound` does this, and an unmoved design in bounds is written back unchanged | not executed | DesignVector.DeltasWrittenAsPlanes | CellSearch.MutateBound, CellSearch.MutatePlanesWritten, CellSearch.MutateKeepsPlanes, DesignVector.PlanesRoundTrip |
| Code/Metaheuristics.py:263-301 | the bound loops reuse the name `i`, so the write-back targets `tmp[i]` with the wrong i | max_vert = 1 and max_horiz = 1: the second iteration writes into tmp[0] | write back into the copy made in the same iteration | not executed | CellSearch.WriteBackIndexShadowed | CellSearch.CellLevyFlights |
| Code/Metaheuristics.py:602-617 | `Two_opt` never clears `cell_ids` between parents | two four-layer designs: the list [0, 1, 2, 3, 0, 1, 2, 3] with the draw 0.5 picks positions 3 and 0 | use the positions of the current design only | not executed | LayerSearch.TwoOptStaleIds | LayerSearch.TwoOptStep, LayerSearch.TwoOptPickAdjacent |
| Code/Metaheuristics.py:902 | the filled cell takes the 0-based position of the fill key, while cell materials are numbered from 1 | keys ["a", "b", "fill"] give 2, which names "b" | the 1-based number of the fill key | not executed | CellDiscard.FillIndexAsWritten, CellDiscard.FillIndexAsWrittenMisses | CellDiscard.FillNumber, CellDiscard.FillLastFills |
| Code/Coeus.py:128-138 | transport, scoring and the history update sit under `if not ids`, and even there cannot reach the update: with MCNP the transport divides by the zero designs to run, otherwise `Pop_Update` receives `rr` twice | any operator that printed a design leaves the history unchanged, so the generation never advances; one that printed none raises | `if ids:`, with `Pop_Update` called with its seven parameters, `rr` given once | not executed | Coeus.RecordedAsWritten, Coeus.RecordedAsWrittenStalls | Coeus.Generation, Coeus.GenerationCounts, Coeus.Generations |
