# Deconvoluted peak sets and instrument components, in Dafny

This project models the peak-set query engine of ms_deisotope and its table of
instrument components.

- **Peak values** (module `Peaks`):
  - the rank pair `_Index`;
  - the read-only `Envelope` of matched (m/z, intensity) points;
  - the deconvoluted peak, with its approximate equality, its hash tuple and `clone`.
  - The `DeconvolutedPeakSolution` subclass is the same class, told apart by a constant flag.
  - Peaks and Index objects are classes because aliasing an Index is observable: a clone shares its source's Index.
- **Orderings** (module `Ordering`): Python's `sorted` with a key, as a stable insertion sort. Lemmas prove that it sorts, is a permutation, keeps the order of equal keys, is idempotent and keeps or loses distinctness together with its input.
- **Free search functions** (module `Search`):
  - `_get_nearest_peak`: a bisection down to the window it sweeps, then the first nearest index in that window;
  - `binary_search`: a relative-error bisection;
  - `_sweep_solution`: the walk down and then up from a hit.
  - The pure parts work on the key sequence that the getter reads. The loops are methods proved against those functions.
- **The peak set** (module `PeakSet`): class `DeconvolutedPeakSet` with the neutral-mass ordering `peaks` and the optional m/z ordering `mzOrdered`. It models:
  - `_reindex` and `reindex`;
  - integer and slice `__getitem__`;
  - `clone`;
  - `get_nearest_peak`, `has_peak`, `all_peaks_for` and `between`.
- **Instrument components** (module `InstrumentComponents`):
  - the four-field `Component` record, with its string-aware equality, name-only hash and `is_a`;
  - the name index `all_components_by_name`, built over any list of components;
  - `component(name)`, with its fallback entry;
  - a few sample entries of the static lists.

Python exceptions are values of `Wrappers.Result`. Of the exceptions the code raises, two are modelled: `TypeError` and `IndexError`.

Quirks of the code are stated as lemmas about concrete inputs:
- the nearest lookup is not globally nearest;
- the two relative-error tests of `binary_search` divide by different values;
- the refinement ignores the m/z getter;
- `all_peaks_for` can miss an equal-mass peak or keep an outlier;
- `between` keeps a first key above its upper bound;
- a component equals its accession string yet hashes by its name;
- `is_a` on a bare-string specialisation is a substring test.

## Model

| member | source | states |
|---|---|---|
| Wrappers.PyIndex | ms_deisotope/peak_set.py:283 | Python indexing of a length-n sequence: defined exactly on [-n, n); a negative index counts from the end |
| Peaks.Index.constructor | ms_deisotope/peak_set.py:23-25 | a new Index holds the two given ranks |
| Peaks.Index.Clone | ms_deisotope/peak_set.py:33-34 | a fresh Index with the same two ranks |
| Peaks.Envelope.constructor | ms_deisotope/peak_set.py:55-56 | the envelope holds the given pairs |
| Peaks.Envelope.Get | ms_deisotope/peak_set.py:61-62 | `envelope[i]` succeeds exactly for i in [-n, n), reading from the end for negative i; otherwise IndexError |
| Peaks.Envelope.Clone | ms_deisotope/peak_set.py:70-71 | a fresh envelope object with the same pairs |
| Peaks.DeconvolutedPeak.constructor | ms_deisotope/peak_set.py:115-134 | every attribute as passed; a missing index becomes a fresh unranked Index; the envelope is a fresh copy of the pairs; m/z is resolved as ResolveMz says |
| Peaks.DeconvolutedPeak.Solution | ms_deisotope/peak_set.py:181-184 | the solution peak keeps the solution and the base initialiser's `fit`; the subclass's own fit argument is lost |
| Peaks.SolutionCloneIter | ms_deisotope/peak_set.py:186-203 | iterating a clone of a solution peak yields the original's solution, the clone itself, then the original's `chosen_for_msms`, which the clone holds as its fit |
| Peaks.DeconvolutedPeak.Clone | ms_deisotope/peak_set.py:146-191 | a fresh peak with a fresh envelope that is a copy of this one and shares this peak's Index object; a solution's clone has `chosen_for_msms` in `fit`, `area` in `chosen_for_msms`, and area 0 |
| Peaks.DeconvolutedPeak.Equals | ms_deisotope/peak_set.py:136-138 | `__eq__` holds exactly when neutral mass and intensity each differ by less than 1e-5; every peak equals itself and the test is symmetric |
| Peaks.DeconvolutedPeak.NotEquals | ms_deisotope/peak_set.py:140-141 | `__ne__` is the negation of `__eq__` taken from either side, so no peak is unequal to itself |
| Peaks.EqualButHashDiffers | ms_deisotope/peak_set.py:136-144 | two peaks with the same neutral mass and intensity but different m/z are `__eq__` in both directions, yet `__hash__` (HashKey) hashes different tuples |
| Peaks.HashKeyIgnoresNeutralMass | ms_deisotope/peak_set.py:143-144 | the tuple `__hash__` hashes (HashKey) depends on m/z, intensity and charge only, not on the neutral mass |
| Peaks.ApproxEqualReflexive | ms_deisotope/peak_set.py:136-138 | peak equality is reflexive |
| Peaks.ApproxEqualSymmetric | ms_deisotope/peak_set.py:136-138 | peak equality is symmetric |
| Peaks.ApproxEqualNotTransitive | ms_deisotope/peak_set.py:136-138 | peak equality is not transitive: two steps of 6e-6 in mass are each equal, and together they are not |
| Peaks.CopyEquals | ms_deisotope/peak_set.py:136-151 | a clone compares equal to its source, in both directions |
| Ordering.StableSortSorted | ms_deisotope/peak_set.py:241-242 | the sort is ordered by its key and is a permutation (same multiset) of its input |
| Ordering.StableSort | ms_deisotope/peak_set.py:241-242 | `sorted` returns as many peaks as it is given; its order and stability are StableSortSorted and StableSortStable |
| Ordering.Insert | ms_deisotope/peak_set.py:241-242 | inserting one peak lengthens the sorted sequence by one; its placement is InsertStable |
| Ordering.StableSortStable | ms_deisotope/peak_set.py:241-242 | for every key value, the peaks with that key keep their input order (stability) |
| Ordering.InsertStable | ms_deisotope/peak_set.py:241-242 | inserting into a sorted sequence places the new peak after every peak with an equal key |
| Ordering.StableSortOfSorted | ms_deisotope/peak_set.py:241-242 | sorting an already sorted sequence returns it unchanged |
| Ordering.StableSortIdempotent | ms_deisotope/peak_set.py:241-242 | sorting twice by the same key is sorting once |
| Ordering.SortedMembers | ms_deisotope/peak_set.py:241-242 | the sort and its input have the same members |
| Ordering.SortKeepsDistinct | ms_deisotope/peak_set.py:241-242 | the sort has no repeated peak object if and only if its input has none |
| Search.FirstMinSpec | ms_deisotope/peak_set.py:362-364 | the first minimum of a sequence is no larger than any element and strictly smaller than every element before it |
| Search.FirstMinUnique | ms_deisotope/peak_set.py:362-364 | a position with both properties is the first minimum |
| Search.SweptWindow | ms_deisotope/peak_set.py:336-347 | the swept window lies inside [lo, hi); it is non-empty when [lo, hi) is; it is narrower than 5 or its midpoint is within 1 of the query |
| Search.Pick | ms_deisotope/peak_set.py:324-347 | the index picked in [lo, hi) lies in [lo, hi) |
| Search.NearestIndex | ms_deisotope/peak_set.py:316-348 | the index `_get_nearest_peak` picks in a non-empty list is a valid position; which one is NearestIndexSpec |
| Search.PickSweepsWindow | ms_deisotope/peak_set.py:336-347 | bisecting ends by sweeping exactly the window SweptWindow describes |
| Search.SweepIsFirstMin | ms_deisotope/peak_set.py:324-334 | a sweep picks an index no farther from the query than any in the window, and strictly closer than every earlier one |
| Search.NearestIndexSpec | ms_deisotope/peak_set.py:316-348 | the index `_get_nearest_peak` picks is the first nearest index of the swept window |
| Search.NearestIndexIs | ms_deisotope/peak_set.py:316-348 | the first nearest index of the swept window is the picked index (the converse of NearestIndexSpec) |
| Search.NearestSmallIsGlobal | ms_deisotope/peak_set.py:337-338 | under 5 keys, the pick is the first index of least error in the whole list |
| Search.NearestNotGlobal | ms_deisotope/peak_set.py:344-345 | on 8 sorted keys the search drops the midpoint 10 and returns 3 for the query 8, though 10 is nearer |
| Search.Sweep | ms_deisotope/peak_set.py:324-334 | `sweep(lo, hi)` finds nothing exactly on an empty window; otherwise it returns the first index of least absolute error, with that error |
| Search.GetNearestPeak | ms_deisotope/peak_set.py:316-348 | fails with TypeError exactly on an empty list; otherwise returns the peak at the picked index, which is in the list, together with its absolute error |
| Search.DownStart | ms_deisotope/peak_set.py:357-367 | the downward walk from mid covers [s, mid], all within tolerance, and s - 1, when it exists, is outside |
| Search.UpEnd | ms_deisotope/peak_set.py:368-378 | the upward walk covers [mid + 1, e), all within tolerance and below the last index; e is outside tolerance or at the last index |
| Search.Candidates | ms_deisotope/peak_set.py:357-378 | every position the refinement visits within tolerance is inside the list; their order is CandidatePositions |
| Search.Refined | ms_deisotope/peak_set.py:351-382 | a result of `_sweep_solution` is a position of the list whose key is within tolerance by `ppm_error(query, key)` |
| Search.CandidatePositions | ms_deisotope/peak_set.py:357-378 | the candidates are visited as mid, mid - 1, ..., s, then mid + 1, ..., e - 1 |
| Search.CandidatesInTolerance | ms_deisotope/peak_set.py:357-378 | every visited candidate is in bounds and within tolerance, and an upward one is below the last index |
| Search.RefinedNoneIff | ms_deisotope/peak_set.py:379-380 | the refinement returns None exactly when mid and the first upward step (if it is before the last index) are both outside tolerance |
| Search.RefinedIsBest | ms_deisotope/peak_set.py:351-382 | a found index is within tolerance, no visited candidate is better, and every candidate visited before it is strictly worse |
| Search.RefinedIs | ms_deisotope/peak_set.py:351-382 | an index within the candidate ranges that is best, and strictly better than all candidates visited before it, is what the refinement returns |
| Search.WalkDown | ms_deisotope/peak_set.py:357-367 | the first loop ends with the best of [s, mid], replaced only by strictly smaller errors, and no best exactly when s = mid + 1 |
| Search.WalkUp | ms_deisotope/peak_set.py:368-378 | the second loop extends the best over [mid + 1, e) with the same strict replacement rule |
| Search.SweepSolution | ms_deisotope/peak_set.py:351-382 | `_sweep_solution` returns what Refined specifies |
| Search.Coarse | ms_deisotope/peak_set.py:390-403 | a coarse hit lies in the window and is within tolerance of the query by `ppm_error(found, query)` |
| Search.CoarseComplete | ms_deisotope/peak_set.py:390-403 | on sorted keys, when any key of the window is within tolerance of the query by `ppm_error(key, query)`, the bisection hits some midpoint within tolerance |
| Search.Found | ms_deisotope/peak_set.py:385-403 | `binary_search` on an empty list finds nothing; a found peak is in the list and its neutral mass is within tolerance by `ppm_error(query, neutral_mass)` |
| Search.BinarySearch | ms_deisotope/peak_set.py:385-403 | returns what Found specifies: None on an empty list; a found peak is in the list and its neutral mass is within tolerance of the query |
| Search.ArgumentOrderMiss | ms_deisotope/peak_set.py:395-396 | the coarse test accepts key 1 for query 2 at tolerance 0.75; the refinement, dividing by the key, rejects it |
| Search.EquidistantQueryKeepsUpper | ms_deisotope/peak_set.py:351-396 | for keys 1000, 1000.01, 1000.1 and the query 1000.005, the hit 1000.01 is kept over 1000 |
| Search.RefinementIgnoresGetter | ms_deisotope/peak_set.py:385-396 | for a peak at m/z 500 and neutral mass 998, the m/z bisection hits it for the query 500, yet `binary_search` with the m/z getter (Found) returns nothing, because the refinement measures the neutral mass |
| PeakSet.SliceBounds | ms_deisotope/peak_set.py:282 | the positions a Python slice covers: clamped bounds, negative bounds counted from the end, empty when they cross |
| PeakSet.BandIndices | ms_deisotope/peak_set.py:264-275 | the slice ends of `all_peaks_for`: TypeError on an empty set, and on a non-empty set exactly when the lower hit is outside tolerance with no rank or the upper hit has no rank; otherwise the lower end is the lower hit's rank, plus one when outside tolerance, and the upper end is the upper hit's rank plus one, minus one when outside tolerance |
| PeakSet.SliceEnds | ms_deisotope/peak_set.py:268-274 | from the two hits' tolerance tests and ranks: TypeError exactly when a needed rank is missing (`None + 1`); otherwise the lower rank stepped on when outside tolerance, and the upper rank plus one, less one when outside tolerance |
| PeakSet.BandIsBandIndices | ms_deisotope/peak_set.py:264-275 | Band, the slice ends computed from the peak objects and their Index objects, is BandIndices on their keys and ranks |
| PeakSet.FirstAtLeast | ms_deisotope/peak_set.py:300-302 | the first position whose key is at least m1 |
| PeakSet.RunEnd | ms_deisotope/peak_set.py:303-304 | collecting stops at the first later key above m2; the first collected key is not compared |
| PeakSet.RankByNeutralMass | ms_deisotope/peak_set.py:243-245 | every peak gets a fresh Index with no m/z rank; distinct peaks get distinct Index objects; each peak's neutral-mass rank is the last position it occupies (its own position when it occurs once) |
| PeakSet.RankByMz | ms_deisotope/peak_set.py:246-247 | every peak's Index gets as m/z rank the last position the peak occupies in the m/z ordering (its own position when it occurs once); neutral-mass ranks are untouched |
| PeakSet.RankPeaks | ms_deisotope/peak_set.py:243-247 | after both loops every peak holds a fresh Index with both ranks set, each the last position of the peak in its ordering |
| PeakSet.CollectRun | ms_deisotope/peak_set.py:300-307 | the loop of `between` returns fresh, distinct copies of the run [a, b); a is the first key at least m1; later keys up to b are at most m2; b is above m2 or the end |
| PeakSet.SortAndRankPeaks | ms_deisotope/peak_set.py:241-247 | returns the stable sort by neutral mass and the stable sort of that by m/z, with every peak holding a fresh Index whose ranks are its last positions in them |
| PeakSet.Reindexed | ms_deisotope/peak_set.py:309 | a new set over peaks without repeats, reindexed: its peaks are sorted by neutral mass, the m/z ordering is that sorted by m/z, every peak holds a newly allocated Index, and the ranks are 0..n-1 in both orderings |
| PeakSet.DeconvolutedPeakSet.constructor | ms_deisotope/peak_set.py:217-219 | a set over the given peaks with no m/z ordering |
| PeakSet.DeconvolutedPeakSet.SortAndRank | ms_deisotope/peak_set.py:232-248 | `_reindex`: the peaks are stably sorted by neutral mass, the m/z ordering is that sorted by m/z, every peak holds a fresh Index whose two ranks are its last positions in the two orderings (its positions when no peak repeats); returns the set itself |
| PeakSet.DeconvolutedPeakSet.Reindex | ms_deisotope/peak_set.py:221-230 | `reindex`: the same new state, with no result |
| PeakSet.DeconvolutedPeakSet.At | ms_deisotope/peak_set.py:280-283 | integer indexing returns the stored peak itself, negative from the end, otherwise IndexError |
| PeakSet.DeconvolutedPeakSet.CloneRange | ms_deisotope/peak_set.py:282 | fresh clones of the peaks of [lo, hi), in order |
| PeakSet.DeconvolutedPeakSet.Slice | ms_deisotope/peak_set.py:280-282 | a slice is a fresh set of clones of the sliced peaks, with no m/z ordering and no reindex |
| PeakSet.DeconvolutedPeakSet.Clone | ms_deisotope/peak_set.py:288-289 | a fresh set of clones of every peak, with no m/z ordering and no reindex |
| PeakSet.DeconvolutedPeakSet.GetNearestPeak | ms_deisotope/peak_set.py:253-257 | the nearest lookup over the chosen ordering; TypeError without an m/z ordering or on an empty set |
| PeakSet.DeconvolutedPeakSet.HasPeak | ms_deisotope/peak_set.py:259-262 | `binary_search` over the chosen ordering: a found peak is in it and within tolerance by neutral mass; TypeError without an m/z ordering |
| PeakSet.DeconvolutedPeakSet.BandFor | ms_deisotope/peak_set.py:264-274 | the two nearest lookups and the slice ends, as Band gives them; TypeError on an empty set |
| PeakSet.DeconvolutedPeakSet.AllPeaksFor | ms_deisotope/peak_set.py:264-275 | fails exactly when the slice ends fail, with TypeError; otherwise a fresh, unindexed set of clones of the peaks between those ends |
| PeakSet.DeconvolutedPeakSet.Between | ms_deisotope/peak_set.py:291-309 | copies of the run of the chosen ordering from the first key at least m1 up to the next key above m2, in a fresh set that is sorted, whose peaks hold newly allocated Index objects (no longer shared with the original set), ranked 0..k-1 in both orderings; TypeError without an m/z ordering |
| PeakSet.ReindexIdempotent | ms_deisotope/peak_set.py:241-248 | a second `_reindex` produces the same two orderings, and so the same ranks |
| PeakSet.AllPeaksForMissesUpperDuplicate | ms_deisotope/peak_set.py:264-275 | two peaks at exactly the query mass: the slice [0:1] leaves the second out |
| PeakSet.AllPeaksForKeepsLowerOutlier | ms_deisotope/peak_set.py:270-271 | two equal peaks outside tolerance below the query: stepping one on lands on the second, and the slice keeps it |
| PeakSet.AllPeaksForBandScenario | ms_deisotope/peak_set.py:264-275 | keys 1000, 1000.01, 1000.1 and the query 1000.05 at 50 ppm: all three peaks are in the slice |
| PeakSet.BetweenExceedsUpper | ms_deisotope/peak_set.py:301-307 | a single key above both bounds is still collected |
| InstrumentComponents.RecordEqualityIsEquivalence | ms_deisotope/data_source/instrument_components.py:8-21 | `__eq__` (Equal) against a record compares all four fields and is reflexive, symmetric and transitive; `__ne__` (NotEqual) is its negation |
| InstrumentComponents.EqualToOwnStrings | ms_deisotope/data_source/instrument_components.py:8-21 | a component `__eq__` (Equal) a string exactly when it is its name or accession, and `__ne__` (NotEqual) every other string |
| InstrumentComponents.HashRespectsRecordEquality | ms_deisotope/data_source/instrument_components.py:23-24 | equal records hash the same |
| InstrumentComponents.HashReadsOnlyName | ms_deisotope/data_source/instrument_components.py:23-24 | `__hash__` (Hash) is the string hash of the name: components with the same name hash the same |
| InstrumentComponents.AccessionEqualityBreaksHash | ms_deisotope/data_source/instrument_components.py:8-24 | the orbitrap entry equals its accession string but, with the length as string hash, hashes differently |
| InstrumentComponents.IsAOwnName | ms_deisotope/data_source/instrument_components.py:26-27 | `is_a` (IsA) holds of a component's own name; any other term qualifies exactly when the specialisation mentions it, by list membership for a list |
| InstrumentComponents.TextSpecializationIsSubstring | ms_deisotope/data_source/instrument_components.py:202-203 | the Acquity FLR entry is a "detector" by substring but not a "detector type" |
| InstrumentComponents.TextSpecializationPda | ms_deisotope/data_source/instrument_components.py:214-215 | the Acquity PDA entry is an "array detector" by substring |
| InstrumentComponents.ByNameKeys | ms_deisotope/data_source/instrument_components.py:284 | the keys of the name index (ByName) are exactly the names in the list |
| InstrumentComponents.ByNameValues | ms_deisotope/data_source/instrument_components.py:284 | each entry is a component of the list whose name is its key |
| InstrumentComponents.ByNameLastWins | ms_deisotope/data_source/instrument_components.py:284 | a component whose name does not recur later is the entry for its name |
| InstrumentComponents.ByNameDistinct | ms_deisotope/data_source/instrument_components.py:282-284 | without repeated names, every listed component is found under its name |
| InstrumentComponents.LookupMatchesName | ms_deisotope/data_source/instrument_components.py:287-291 | whatever `component(name)` (Lookup) returns has that name, satisfies `is_a(name)` and `== name` |
| InstrumentComponents.LookupUnknown | ms_deisotope/data_source/instrument_components.py:290-291 | a name that is not listed gets the fallback entry, with the name as accession and category and [name] as specialisation |
| InstrumentComponents.LookupListed | ms_deisotope/data_source/instrument_components.py:282-289 | a listed name whose component does not recur later is looked up to that component |
| InstrumentComponents.SampleLookups | ms_deisotope/data_source/instrument_components.py:222-291 | on the sample table: "orbitrap" has accession MS:1000484; the nanospray inlet is an electrospray inlet; "Orbitrap" (wrong case) gets the fallback |

## Left out

- **`ppm_error`:** its body is not part of this model. It is taken as (x - y) / y.
- **ZeroDivisionError:** a zero denominator of `ppm_error` would raise ZeroDivisionError. The members that divide require nonzero queries and neutral masses instead of modelling that exception.
- **`mass_charge_ratio`:** this external brainpy function is the parameter `massChargeRatio`.
- **The string hash:** Python's `hash` of a string is a parameter of `InstrumentComponents.Hash`.
- **The C extension:** the swap at `peak_set.py:406-421` replaces the classes with an extension whose code is not visible. The pure-Python classes are modelled.
- **Display, pickling and length:** `__repr__`, `__str__`, `__reduce__`, `__len__` and `__iter__` are not modelled, except the solution's `__iter__` (Iter, stated by SolutionCloneIter).
- **Floats:** floats are reals, with no rounding, infinities or NaN. The `float('inf')` sentinel of the loops is an absent value.
- **Other peak attributes:** attributes other than `index` are constants, because no core code reassigns them.
- **Default arguments:** default arguments are explicit parameters. A peak built with the default `envelope=None`, where `Envelope(None)` fails, is not modelled; the envelope is always a sequence of pairs.
- **Slice steps:** only start and stop are modelled.
- **Band bounds:** the two bounds of `all_peaks_for` are passed to Slice as Python integers. A missing lower rank that needs no increment is an open slice start.
- **Static component lists:** only six sample entries are modelled. The name-index lemmas hold for any list. None of the 100 names in the source lists repeats, which ByNameDistinct covers.
- **`__generate_list_code`:** it loads the controlled vocabulary and prints code, so it is not modelled.
- **`isinstance(other, str)`:** Python 2 unicode strings are not distinguished from `str`; `Operand.Str` covers both.
- **mzxml.py and the MGF test:** these are not part of this model.
- **Binary search termination:** the loop of `binary_search` is proved to terminate by its shrinking window (`hi - lo`); the fact that `lo < mid < hi` is not stated separately.
- **Stable sort uniqueness:** StableSort is one stable sort. Its uniqueness, that every sorted and stable permutation equals it, is not proved.
