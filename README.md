# Agent Q edge runtime — a Dafny model

Agent Q (`qube_runtime.py`) is the edge runtime that reads token pixels, one
snapshot of an autonomous agent's state per pixel, and turns each pixel into a
navigation decision. For every pixel it:

- parses the corridor address `DISTRICT_<n>.<chamber>.<node>`;
- reads the intent alignment `psi` and the rate `omega` of the state vector;
- classifies the autonomy drift index against a warning and a critical
  threshold, remembering the last 100 indices;
- decodes the voxel signature into 27 occupancy bits of the 3x3x3 cube around
  the agent, through a cache;
- checks the forward face of that cube for an obstacle;
- looks up the intent label of the pixel's intent hash;
- decides one of five actions by a fixed-priority cascade and appends the
  decision to its log.

The model follows the source's own shape:

- The pure parts are Dafny functions and lemmas: the decision rule, the corridor
  parse and key, the threshold readings, the intent lookup, the signature
  decode and the collision predicate.
- The three objects whose fields the source updates in place are classes:
  - the drift monitor (`driftHistory` grows by `append` and shrinks by `pop(0)`);
  - the collision detector (`voxelCache`);
  - the runtime itself (`decisionLog`).
- The early-exit scan of `is_collision_ahead` is a method with a loop, proved
  against the collision predicate.

Modules, one per component:

- `Options`: the optional value.
- `Text`: Python's `str.split` with a non-empty separator. Leftmost,
  non-overlapping occurrences; at least one piece.
- `Numerals`: `int(text, base)` for bases 10 and 16, and `str(n)`.
- `Interpreter`: `StateVectorInterpreter` and `IntentMatcher`.
- `Corridors`: `CorridorNavigator`.
- `Voxels`: `VoxelCollisionDetector`.
- `Drift`: `AutonomyDriftMonitor`.
- `Agent`: token pixels, decisions and `QubeRuntime`.
- `Scenarios`: the default configuration and the unit-test scenarios of
  `qube_runtime.test.py`.

Modelling choices:

- Python floats are Dafny `real`. The modelled operations only compare floats; the one float arithmetic of the core, `get_phase_quadrant`, is left out.
- Python integers are unbounded `int`. The 27-bit mask `& 0x7FFFFFF` is written
  as the remainder modulo 2^27. For every integer, negative ones included, that
  is what the mask computes in two's complement.
- Bit `p` of an integer is that integer shifted right `p` times, rounding down,
  then tested for oddness. This is Python's `v & (1 << p) != 0`.
- The `IndexError` and `ValueError` that `parse_corridor` and
  `decode_voxel_signature` catch are the `None` case of a reading function. The
  fallback values (`Corridor(0, "UNKNOWN", "UNKNOWN")`, bits 0) are applied on
  top of it.
- Python's `Decision.action` is a string. Here it is the `Action` datatype, and
  `ActionName` gives the string. The parameter dictionary is a `map` from names
  to text or numbers.

- The drift tiers are inclusive, as `check_drift` compares with `>=`: an index
  equal to a threshold is classified at that threshold's level. The test
  comment at qube_runtime.test.py:63 reads "Critical > 0.7"; the model follows
  the code.
- Python's `int()` and `str()` refuse decimal text of more than 4300 digits in
  CPython's default configuration. `Numerals.ParseInteger` models that limit
  for base 10 as a failure; base 16 has no limit.

## Model

| member | source | states |
|---|---|---|
| `Text.Find` | qube_runtime.py:180 | the result is an occurrence of the separator with none before it; there is no result exactly when the separator does not occur |
| `Text.Split` | qube_runtime.py:154-155 | at least one piece; the pieces joined by the separator give back the input; no piece contains the separator |
| `Text.SplitAfter` | qube_runtime.py:154-155 | when no occurrence starts inside `a`, splitting `a + sep + rest` cuts first right after `a` |
| `Text.SplitJoin` | qube_runtime.py:154-155 | splitting on one character undoes joining on it when no piece holds that character |
| `Numerals.ParseInteger` | qube_runtime.py:155 | definition of `int(text, base)`: an optional sign, then at least one digit of the base, at most 4300 of them in base 10; properties in `ParseFormat`, `ParseDigits` and `LeadingZeros` |
| `Numerals.IntToDecimal` | qube_runtime.py:164 | `str(n)` holds only digits and `-`; read back in `ParseFormat` |
| `Numerals.WithinDigitLimit` | qube_runtime.py:155 | definition: the decimal form of `n` has at most 4300 digits |
| `Numerals.NatToDecimal` | qube_runtime.py:164 | `str(n)` is a non-empty string of decimal digits, denotes `n`, and has no leading zero |
| `Numerals.ParseFormat` | qube_runtime.py:155 | `int(str(n))` is `n` for every integer, negative ones included, whose decimal form has at most 4300 digits; longer decimal text is refused |
| `Numerals.ParseDigits` | qube_runtime.py:180 | digit text without a sign reads as the value of its digits, in base 16 at any length and in base 10 up to 4300 digits; longer decimal text is refused |
| `Numerals.LeadingZeros` | qube_runtime.py:180 | zeros in front of a digit string do not change its value |
| `Numerals.AllZeros` | qube_runtime.py:180 | a string of zeros denotes zero |
| `Corridors.ReadCorridor` | qube_runtime.py:153-158 | definition of the three readings `parse_corridor` makes, `None` for the errors it catches; properties in `FallbackCases`, `ParsedParts` and `ParseKey` |
| `Corridors.ParseCorridor` | qube_runtime.py:151-160 | definition: the reading, or `(0, "UNKNOWN", "UNKNOWN")` when it fails; properties in `FallbackCases` and `ParseWellFormed` |
| `Corridors.CorridorKey` | qube_runtime.py:164 | definition of the key `DISTRICT_<n>.<chamber>.<node>`; properties in `ParseKey` and `AddressOfParse` |
| `Corridors.GetNeighbors` | qube_runtime.py:162-165 | for a corridor parsed from a well-formed address text, the graph's entry for that very text, or the empty list when the graph has none |
| `Corridors.Addressable` | qube_runtime.py:151-165 | definition: no dot in chamber or node, district of at most 4300 decimal digits |
| `Corridors.ParseKey` | qube_runtime.py:151-165 | for an addressable corridor, parsing its key returns that corridor |
| `Corridors.WellFormed` | qube_runtime.py:151-165 | definition: the text is the key of an addressable corridor |
| `Corridors.ParseWellFormed` | qube_runtime.py:151-165 | well-formed text parses without fallback, and the key rebuilt from the parse is exactly the text |
| `Corridors.AddressOfParse` | qube_runtime.py:151-165 | a corridor parsed from well-formed text rebuilds exactly that text, so no two well-formed texts parse to the same corridor; malformed text, however, parses to the same corridor as `DISTRICT_0.UNKNOWN.UNKNOWN` (see `UnknownAddress`) |
| `Corridors.MalformedNeighbors` | qube_runtime.py:159-165 | the unknown corridor's key is `DISTRICT_0.UNKNOWN.UNKNOWN`, and every unreadable address gets the neighbours stored under it |
| `Corridors.UnknownAddress` | qube_runtime.py:159-165 | `DISTRICT_0.UNKNOWN.UNKNOWN` is itself a well-formed address and parses to the fallback corridor, so unreadable text is looked up like that real node |
| `Corridors.FallbackCases` | qube_runtime.py:153-160 | parsing falls back exactly when there are fewer than three dot-parts, the first part has no `_`, or its second `_`-piece is not an integer; the fallback is `(0, "UNKNOWN", "UNKNOWN")` |
| `Corridors.ParsedParts` | qube_runtime.py:154-158 | a successful parse keeps the second and third dot-parts verbatim as chamber and node, neither holding a dot |
| `Voxels.ParseSignature` | qube_runtime.py:179-182 | definition of the successful decode: the hex piece after the first `0x`, modulo 2^27; properties in `DecodeHex` and `DecodeFailure` |
| `Voxels.DecodeSignature` | qube_runtime.py:179-185 | the decoded bits are always below 2^27 |
| `Voxels.DecodeFailure` | qube_runtime.py:179-185 | no `0x`, or a piece after it that is not an integer, is a failure, and a failure decodes to 0 |
| `Voxels.DecodeHex` | qube_runtime.py:180-181 | `prefix + "0x" + hex` with no `0x` in the prefix decodes to the hex digits' value modulo 2^27 |
| `Voxels.SplitAtMarker` | qube_runtime.py:180 | splitting `prefix + "0x" + hex` on `0x` gives exactly the prefix and the hex digits |
| `Voxels.FirstMarker` | qube_runtime.py:180 | no `0x` starts inside a prefix free of `0x`, even across its last character |
| `Voxels.BitSet` | qube_runtime.py:200 | definition of `v & (1 << p) != 0` by halving `p` times; properties in `Scenarios.ZeroBits` and `Scenarios.ForwardFace` |
| `Voxels.FaceBits` | qube_runtime.py:190-197 | definition of the four face lists, empty for any other direction; properties in `FaceGeometry` |
| `Voxels.CollisionAhead` | qube_runtime.py:197-203 | definition: some bit of the face list is set; properties in `IsCollisionAhead` and `UnknownDirection` |
| `Voxels.FaceGeometry` | qube_runtime.py:189-195 | the four face lists are the cube cells with x = 2, x = 0, y = 0 and y = 2, where cell p sits at (p % 3, p / 3 % 3, p / 9) |
| `Voxels.UnknownDirection` | qube_runtime.py:197 | a direction other than the four faces never reports a collision |
| `Voxels.VoxelCollisionDetector.constructor` | qube_runtime.py:170-171 | a new detector has an empty cache, which satisfies the cache invariant |
| `Voxels.VoxelCollisionDetector.DecodeVoxelSignature` | qube_runtime.py:173-185 | returns the pure decode of the signature; the cache gains exactly the successful decode and nothing on failure; every cache entry stays equal to the decode of its key |
| `Voxels.VoxelCollisionDetector.IsCollisionAhead` | qube_runtime.py:187-203 | true exactly when some bit position of the direction's face list is set |
| `Interpreter.IsIntentAligned` | qube_runtime.py:131-133 | definition `psi >= threshold`; properties in `AlignmentUpwardClosed` |
| `Interpreter.GetActivityLevel` | qube_runtime.py:136-143 | definition of the three bands; properties in `ActivityBands` |
| `Interpreter.AlignmentUpwardClosed` | qube_runtime.py:131-133 | alignment is `psi >= threshold`, upward closed, with 0.5 as default; 0.5 is aligned and 0.2 is not |
| `Interpreter.ActivityBands` | qube_runtime.py:136-143 | Active exactly on [0.5, 2.0); a larger `omega` never gives a lower level; 2.0 is Hyperactive |
| `Interpreter.LookupIntent` | qube_runtime.py:211-213 | definition of `dict.get`; properties in `Agent.UrgentIntent` |
| `Drift.Classify` | qube_runtime.py:230-235 | definition of the three tiers; properties in `ClassifyThresholds` and `ClassifyMonotone` |
| `Drift.Retain` | qube_runtime.py:225-228 | definition of dropping the oldest entry past 100; properties in `RetainAppend` |
| `Drift.ClassifyThresholds` | qube_runtime.py:230-235 | Critical iff index >= critical threshold; Warning iff below it and >= warning threshold; Nominal iff below both |
| `Drift.ClassifyMonotone` | qube_runtime.py:230-235 | for any two thresholds, a larger index is never classified less severe |
| `Drift.DefaultBoundaries` | qube_runtime.py:218-235 | under the defaults 0.3/0.7: 0.7 and 0.95 are Critical, 0.3 is Warning, 0.14 is Nominal |
| `Drift.RetainAppend` | qube_runtime.py:225-228 | after an append to a history of at most 100, the history has at most 100 entries, ends with the new index, and drops only the oldest when it was full |
| `Drift.AutonomyDriftMonitor.constructor` | qube_runtime.py:218-221 | thresholds default to 0.3 and 0.7; the history starts empty |
| `Drift.AutonomyDriftMonitor.CheckDrift` | qube_runtime.py:223-235 | returns the classification of the index; the new history is the old one with the index appended and the oldest entry dropped when it passed 100 |
| `Agent.ActionName` | qube_runtime.py:319-358 | definition of the action strings `decide` writes; used in `Scenarios.NominalRun` |
| `Agent.Decide` | qube_runtime.py:319-358 | the action is triggered by the facts, and no triggered action has higher priority (Halt, then AvoidObstacle, RealignIntent, ExecuteImmediate, Continue) |
| `Agent.HaltOnCriticalDrift` | qube_runtime.py:321-327 | critical drift halts with its reason and no parameters, whatever the other facts |
| `Agent.DecisionUnique` | qube_runtime.py:319-358 | the priority rule determines exactly one action |
| `Agent.DecisionParams` | qube_runtime.py:329-358 | AvoidObstacle carries direction `left`, RealignIntent carries target_psi 0.8, the other actions carry no parameters |
| `Agent.PixelContext` | qube_runtime.py:285-296 | definition of the four facts `decide` reads; properties in `UrgentIntent` and the `Scenarios` lemmas |
| `Agent.PixelDecision` | qube_runtime.py:299-308 | definition: `decide` on those facts; properties in `Decide` and `ProcessPixel` |
| `Agent.UrgentIntent` | qube_runtime.py:296 | the urgent label reaches the decision exactly when the database stores `EXECUTE_URGENT` under the pixel's hash, so an unknown hash never gives EXECUTE_IMMEDIATE |
| `Agent.QubeRuntime.constructor` | qube_runtime.py:265-276 | a new runtime has an empty decision log, a fresh monitor with default thresholds and empty history, and a fresh detector with an empty cache |
| `Agent.QubeRuntime.ProcessPixel` | qube_runtime.py:278-317 | the decision is the pure decision for the pixel; exactly one log entry is appended, carrying the pixel's id, the decision and the timestamp; earlier entries are unchanged; the drift history is updated once; the cache changes only by the pixel's decode |
| `Scenarios.DefaultConfig` | qube_runtime.py:367-381 | definition of the default corridor graph and intent database; properties in `SampleCorridor` and `UrgentDecision` |
| `Scenarios.ZeroBits` | qube_runtime.py:199-203 | zero has no bit set |
| `Scenarios.EmptySignature` | qube_runtime.test.py:30 | `VXL_0x00000000` decodes to 0 |
| `Scenarios.BitTwoSignature` | qube_runtime.test.py:82-85 | `VXL_0x00000004` decodes to 4 |
| `Scenarios.ForwardFace` | qube_runtime.test.py:82-85 | no bits means no forward collision; bit 2 is on the forward face |
| `Scenarios.SampleVoxels` | qube_runtime.test.py:79-89 | the two reference signatures decode to 0 and 4, and only the second has a forward collision |
| `Scenarios.NominalDecision` | qube_runtime.test.py:47-57 | the reference pixel gives CONTINUE with reason "Nominal operation" |
| `Scenarios.DriftAlertDecision` | qube_runtime.test.py:59-68 | autonomy index 0.95 gives HALT with reason "Critical autonomy drift detected" |
| `Scenarios.RealignmentDecision` | qube_runtime.test.py:70-77 | psi 0.2 gives REALIGN_INTENT |
| `Scenarios.CollisionDecision` | qube_runtime.test.py:79-89 | voxel signature `VXL_0x00000004` gives AVOID_OBSTACLE |
| `Scenarios.UrgentDecision` | qube_runtime.py:345-351 | the intent hash labelled EXECUTE_URGENT in the default database gives EXECUTE_IMMEDIATE |
| `Scenarios.SampleCorridorKey` | qube_runtime.py:164 | the key of `(1, CHAMBER_0, NODE_START)` is `DISTRICT_1.CHAMBER_0.NODE_START` |
| `Scenarios.SampleCorridor` | qube_runtime.py:371-374 | the reference corridor parses into its parts and its one neighbour is `DISTRICT_1.CHAMBER_0.NODE_PROCESS` |
| `Scenarios.UndottedCorridor` | qube_runtime.py:159-160 | text without dots falls back to the unknown corridor |
| `Scenarios.NominalRun` | qube_runtime.test.py:35-57 | a new runtime given the reference pixel returns CONTINUE, logs exactly that decision under `TPX_TEST_01` and its timestamp, its action string is `"CONTINUE"` as the test compares it, and it records the index 0.1 once |
| `Scenarios.RepeatedDecode` | qube_runtime.py:175-182 | decoding one signature twice gives the same bits, equal to the pure decode, and the second decode leaves the cache as the first left it |

## Left out

- Checkpoint ledger, sealing, hash-chain validation, replay and forking: `qube_runtime.py` does not implement them. `prevHash` and `hash` are carried as opaque text only.
- `TokenPixelDeserializer.parse` and `parse_stream` (qube_runtime.py:81-119): JSON decoding and stream reading. The model starts from a decoded `TokenPixel`.
- `StateVectorInterpreter.get_phase_quadrant` (qube_runtime.py:125-128): floating-point modulo by 2π and floor division by π/2 have no faithful `real` counterpart, and `decide` does not use the quadrant. `ProcessPixel` therefore does not compute it, and the `ValueError` it raises for a NaN or infinite `phi` is not modelled.
- Floating point in general: NaN, infinities and rounding are not modelled. All thresholds are compared as exact reals.
- `ActionExecutor.execute` and `QubeRuntime.execute_decision` (qube_runtime.py:237-258, 360-363): they call arbitrary Python callables. The action closures of `get_default_config` (qube_runtime.py:384-402) are foreign callables that `execute` invokes, and `halt_action` reads the clock. `QubeConfig` therefore holds only the corridor graph and the intent database.
- `main` (qube_runtime.py:410-448) and every logging call: argument parsing, file and standard-input I/O, timing and interruption.
- `Numerals.ParseInteger`: models `int(text, base)` over an optional sign followed by ASCII digits only. It does not accept what Python also accepts: surrounding whitespace, `_` between digits, a `0x`/`0X` prefix in base 16, or non-ASCII Unicode digits. Such text reads as a failure here. This affects a hex piece like `00_04` and a district piece like ` 1`. The 4300-digit limit is CPython's default: a Python without it, or one configured by `sys.set_int_max_str_digits`, reads longer decimal text too.
- `Numerals.IntToDecimal`: does not model the `ValueError` that `str(n)` raises beyond 4300 digits, so `CorridorKey` writes a key for every district. A corridor that `parse_corridor` returned never has such a district.
- The other keyword arguments `process_pixel` passes to `decide` (corridor, quadrant, activity, pixel; qube_runtime.py:299-308): `decide` never reads them, so the `Context` record holds only the four facts it reads.
