# q/pt shift analysis task — a Dafny model

This project models `AliAnalysisTaskEmcalQoverPtShift`, an EMCAL jet-group
analysis task. The task studies how a constant bias in the measured inverse
transverse momentum q/pt distorts the charged-track pt spectrum.

For every accepted track the task computes a shifted transverse momentum
`1 / (shift * charge + 1 / pt)`. It fills two families of histograms:

- the "plain" histograms get (original pt, pt at the configured shift);
- the "scan" histograms get (shift, pt at that shift) for every bin centre
  of a scan axis of q/pt shifts.

Both families exist per charge sign ("pos"/"neg"). Each has an inclusive
variant, a Global variant (track type 0) and a Complementary variant (track
type 1), and the same three restricted to the EMCAL acceptance. That makes
24 histograms. The factory `AddTaskQOverPtShift` names and configures a task
from a trigger class and a shift.

The modules follow the structure of the task:

| file | module | contents |
|---|---|---|
| `options.dfy` | `Options` | the optional-value wrapper |
| `shift_transform.dfy` | `ShiftTransform` | the shifted-pt transform and its algebra |
| `scan_grid.dfy` | `ScanGrid` | fixed-width axes and the list of bin centres |
| `histograms.dfy` | `Histograms` | histogram keys, the naming scheme, booking order, a histogram as its axes plus its filled points, and the effect of a sequence of fills |
| `fill_routing.dfy` | `FillRouting` | track classification and which histograms a track fills with which points, as a sequence of fills in source order |
| `task_config.dfy` | `TaskConfig` | trigger bits, the trigger test, the shift tag and the task name |
| `qoverpt_task.dfy` | `QoverPtTask` | the task as a class: setup, the track loop, and the factory |

The class `AnalysisTaskEmcalQoverPtShift` keeps the source's mutable state:
the configuration fields, the list of scan shifts (`binCenters`) and the
histogram registry (`histos`, a map from key to histogram). Its methods
change these fields with loops, as the source does. Each method is proved
against a specification function:

- `UserCreateOutputObjects` builds the registry and `Centers(ScanAxis())`;
- `Run` leaves the registry at `Apply(old(histos), RunFills(...))`.

The lemmas in `FillRouting` and `Histograms` then say what those fills mean
per histogram.

## Model

| member | source | states |
|---|---|---|
| ShiftTransform.ShiftedPt | PWGJE/EMCALJetTasks/Tracks/AliAnalysisTaskEmcalQoverPtShift.cxx:185-187 | where defined, the result is non-zero and its inverse is the original inverse momentum moved by shift * charge |
| ShiftTransform.ZeroShiftIsIdentity | PWGJE/EMCALJetTasks/Tracks/AliAnalysisTaskEmcalQoverPtShift.cxx:185-187 | with zero shift the transform is always defined and returns pt, for either charge |
| ShiftTransform.SignSymmetry | PWGJE/EMCALJetTasks/Tracks/AliAnalysisTaskEmcalQoverPtShift.cxx:185-187 | negating both the shift and the charge gives the same result |
| ShiftTransform.ShiftThenUnshift | PWGJE/EMCALJetTasks/Tracks/AliAnalysisTaskEmcalQoverPtShift.cxx:185-187 | shifting by -s undoes a shift by s, and the undoing transform is always defined |
| ShiftTransform.ShiftsCompose | PWGJE/EMCALJetTasks/Tracks/AliAnalysisTaskEmcalQoverPtShift.cxx:185-187 | a shift by a and then by b equals one shift by a + b |
| ShiftTransform.ShiftDirection | PWGJE/EMCALJetTasks/Tracks/AliAnalysisTaskEmcalQoverPtShift.cxx:185-187 | for positive pt, a shift along the charge lowers pt and keeps it positive; a shift against it raises pt while the inverse stays positive; a negative shifted inverse gives a negative result |
| ScanGrid.Centers | PWGJE/EMCALJetTasks/Tracks/AliAnalysisTaskEmcalQoverPtShift.cxx:100-104 | the list holds one centre per bin of the axis |
| ScanGrid.CenterFormula | PWGJE/EMCALJetTasks/Tracks/AliAnalysisTaskEmcalQoverPtShift.cxx:102-103 | entry i is lo + (i + 1/2) * (hi - lo) / nbins |
| ScanGrid.CentersEvenlySpaced | PWGJE/EMCALJetTasks/Tracks/AliAnalysisTaskEmcalQoverPtShift.cxx:100-104 | neighbouring entries are exactly one bin width apart |
| ScanGrid.CentersIncreasing | PWGJE/EMCALJetTasks/Tracks/AliAnalysisTaskEmcalQoverPtShift.cxx:100-104 | on a non-empty range the entries strictly increase |
| ScanGrid.CentersInside | PWGJE/EMCALJetTasks/Tracks/AliAnalysisTaskEmcalQoverPtShift.cxx:100-104 | on a non-empty range every entry lies strictly inside (lo, hi) |
| ScanGrid.DefaultGrid | PWGJE/EMCALJetTasks/Tracks/AliAnalysisTaskEmcalQoverPtShift.cxx:67-69 | the default scan (100 bins over [-1e-3, 1e-3]) gives 100 shifts from -9.9e-4 to 9.9e-4 in steps of 2e-5 |
| Histograms.HistNameRoundTrip | PWGJE/EMCALJetTasks/Tracks/AliAnalysisTaskEmcalQoverPtShift.cxx:86-97 | every histogram name parses back to its own key |
| Histograms.ParseHistNameSound | PWGJE/EMCALJetTasks/Tracks/AliAnalysisTaskEmcalQoverPtShift.cxx:86-97 | a string parses to a key only if it is exactly that key's name |
| Histograms.HistNameInjective | PWGJE/EMCALJetTasks/Tracks/AliAnalysisTaskEmcalQoverPtShift.cxx:118-129 | distinct keys have distinct names, so a lookup by the name built from a key finds that key's histogram |
| Histograms.InGroupKeys | PWGJE/EMCALJetTasks/Tracks/AliAnalysisTaskEmcalQoverPtShift.cxx:86-97 | every key is one of the six booked for its charge and acceptance variant |
| Histograms.BookingOrderIsComplete | PWGJE/EMCALJetTasks/Tracks/AliAnalysisTaskEmcalQoverPtShift.cxx:84-98 | the booking loop lists 24 histograms, "pos" block first; every key appears at its computed position, and each position holds the key computed for it |
| Histograms.BookedNamesDistinct | PWGJE/EMCALJetTasks/Tracks/AliAnalysisTaskEmcalQoverPtShift.cxx:84-98 | the 24 booked histograms have pairwise distinct names |
| Histograms.ApplyPoints | PWGJE/EMCALJetTasks/Tracks/AliAnalysisTaskEmcalQoverPtShift.cxx:141-177 | a sequence of fills keeps every histogram's axes and appends to it exactly the points addressed to it, in order |
| FillRouting.ClassifyProperties | PWGJE/EMCALJetTasks/Tracks/AliAnalysisTaskEmcalQoverPtShift.cxx:133-138 | the sign is "pos" exactly when Charge() > 0; no track is both global and complementary; EMCAL acceptance is \|eta\| < 0.7 with phi inside the bounds inclusive |
| FillRouting.ShiftedValue | PWGJE/EMCALJetTasks/Tracks/AliAnalysisTaskEmcalQoverPtShift.cxx:139-140 | for pt = 0 the value is 0 (the double result 1/inf); otherwise it is infinite exactly when the shifted inverse momentum is zero, and else its inverse is the inverse momentum moved by shift * charge |
| FillRouting.ZeroShiftDiagonal | PWGJE/EMCALJetTasks/Tracks/AliAnalysisTaskEmcalQoverPtShift.cxx:139-141 | with zero shift a plain histogram receives (pt, pt) for any track of non-zero pt |
| FillRouting.TargetsAreSelected | PWGJE/EMCALJetTasks/Tracks/AliAnalysisTaskEmcalQoverPtShift.cxx:141-156 | a histogram is among a track's fill targets of one kind if and only if it has the track's charge, it is inclusive or its scope matches the track type, and it is not an EMCAL variant unless the track is in acceptance |
| FillRouting.TargetsCount | PWGJE/EMCALJetTasks/Tracks/AliAnalysisTaskEmcalQoverPtShift.cxx:141-156 | a track fills (1 + [global] + [comp]) * (1 + [emcal]) histograms of each kind, no histogram twice |
| FillRouting.ScanFillsCount | PWGJE/EMCALJetTasks/Tracks/AliAnalysisTaskEmcalQoverPtShift.cxx:163-180 | the scan fills of a track number the scan shifts times the number of scan targets |
| FillRouting.TrackFillsPerHistogram | PWGJE/EMCALJetTasks/Tracks/AliAnalysisTaskEmcalQoverPtShift.cxx:139-180 | from one track, a selected plain histogram receives exactly (pt, shifted pt); a selected scan histogram receives (s, pt shifted by s) for each scan shift s in order; any other histogram receives nothing |
| FillRouting.TrackFillsShape | PWGJE/EMCALJetTasks/Tracks/AliAnalysisTaskEmcalQoverPtShift.cxx:130-181 | one track makes P = (1 + [global] + [comp]) * (1 + [emcal]) plain fills plus N * P scan fills, each into a histogram the gating selects |
| FillRouting.ChargeRouting | PWGJE/EMCALJetTasks/Tracks/AliAnalysisTaskEmcalQoverPtShift.cxx:136-162 | every fill of a track goes to a "pos" histogram exactly when Charge() > 0 |
| FillRouting.OutsideAcceptanceNoEmcal | PWGJE/EMCALJetTasks/Tracks/AliAnalysisTaskEmcalQoverPtShift.cxx:148-179 | a track outside the EMCAL acceptance fills no EMCAL histogram |
| FillRouting.TrackEffect | PWGJE/EMCALJetTasks/Tracks/AliAnalysisTaskEmcalQoverPtShift.cxx:130-181 | after one track, every histogram holds its old points followed by what that track sends it; unselected histograms are unchanged |
| FillRouting.RunFillsConcat | PWGJE/EMCALJetTasks/Tracks/AliAnalysisTaskEmcalQoverPtShift.cxx:130-181 | the fills of two batches of tracks are the fills of the first batch followed by those of the second |
| FillRouting.RunTwiceDoubles | PWGJE/EMCALJetTasks/Tracks/AliAnalysisTaskEmcalQoverPtShift.cxx:130-181 | processing the same tracks twice gives each histogram its points twice |
| FillRouting.RunOrderIndependent | PWGJE/EMCALJetTasks/Tracks/AliAnalysisTaskEmcalQoverPtShift.cxx:130-181 | the order of two batches of tracks does not change any histogram's multiset of points |
| FillRouting.RunFillsPerHistogram | PWGJE/EMCALJetTasks/Tracks/AliAnalysisTaskEmcalQoverPtShift.cxx:130-181 | over a whole run, each histogram receives exactly the concatenation of what each track sends it, track by track |
| FillRouting.RunPointsUnselected | PWGJE/EMCALJetTasks/Tracks/AliAnalysisTaskEmcalQoverPtShift.cxx:130-181 | a histogram that no track of the run selects receives nothing |
| FillRouting.RunEffect | PWGJE/EMCALJetTasks/Tracks/AliAnalysisTaskEmcalQoverPtShift.cxx:130-181 | after a run, each histogram keeps its axes and holds its old points followed by its run points; one that no track selects is unchanged |
| TaskConfig.TriggerBits | PWGJE/EMCALJetTasks/Tracks/AliAnalysisTaskEmcalQoverPtShift.cxx:215-223 | INT7 gives kINT7, EJ1 and EJ2 give kEMCEJE, EG1 and EG2 give kEMCEGA; the bits are non-zero if and only if the trigger is one of these five, and are always one of the three bits or zero |
| TaskConfig.TriggerBitsClasses | PWGJE/EMCALJetTasks/Tracks/AliAnalysisTaskEmcalQoverPtShift.cxx:217-219 | both jet thresholds map to kEMCEJE, both gamma thresholds to kEMCEGA, and the three bits are disjoint |
| TaskConfig.ContainsIff | PWGJE/EMCALJetTasks/Tracks/AliAnalysisTaskEmcalQoverPtShift.cxx:191 | the substring test holds if and only if the pattern occurs at some position |
| TaskConfig.TriggerSelectedMeaning | PWGJE/EMCALJetTasks/Tracks/AliAnalysisTaskEmcalQoverPtShift.cxx:189-193 | an event is selected if and only if its mask shares a bit with the trigger bits and its fired classes contain the trigger string; a task with no bits selects nothing |
| TaskConfig.TruncateToInt | PWGJE/EMCALJetTasks/Tracks/AliAnalysisTaskEmcalQoverPtShift.cxx:226 | conversion to int truncates toward zero: the result lies between 0 and x, less than one unit from x |
| TaskConfig.ShiftTagMeaning | PWGJE/EMCALJetTasks/Tracks/AliAnalysisTaskEmcalQoverPtShift.cxx:226 | the tag starts with 'p' if and only if shift > 0 and with 'm' otherwise; the rest is decimal digits that read back as \|int(shift * 1e5)\|, exactly five of them below 100000 |
| TaskConfig.ShiftTagInjective | PWGJE/EMCALJetTasks/Tracks/AliAnalysisTaskEmcalQoverPtShift.cxx:226 | two shifts share a tag if and only if they agree on the sign test and on the truncated magnitude |
| TaskConfig.ShiftTagExamples | PWGJE/EMCALJetTasks/Tracks/AliAnalysisTaskEmcalQoverPtShift.cxx:226 | shift 0 gives "m00000" and shift 1.23e-3 gives "p00123" |
| TaskConfig.TaskNameSplits | PWGJE/EMCALJetTasks/Tracks/AliAnalysisTaskEmcalQoverPtShift.cxx:225-227 | after the fixed prefix, splitting a task name at its first '_' gives back the tag and the trigger |
| TaskConfig.TaskNameInjective | PWGJE/EMCALJetTasks/Tracks/AliAnalysisTaskEmcalQoverPtShift.cxx:225-227 | two tasks share a name only if they share the shift tag and the trigger |
| QoverPtTask.AnalysisTaskEmcalQoverPtShift.constructor | PWGJE/EMCALJetTasks/Tracks/AliAnalysisTaskEmcalQoverPtShift.cxx:61-73 | a new task has zero shift, no trigger bits, an empty trigger string, the 100-bin [-1e-3, 1e-3] scan axis, no histograms and no scan shifts |
| QoverPtTask.AnalysisTaskEmcalQoverPtShift.Book | PWGJE/EMCALJetTasks/Tracks/AliAnalysisTaskEmcalQoverPtShift.cxx:86 | booking adds an empty histogram with the key's axes and changes no other entry |
| QoverPtTask.AnalysisTaskEmcalQoverPtShift.BookGroup | PWGJE/EMCALJetTasks/Tracks/AliAnalysisTaskEmcalQoverPtShift.cxx:86-97 | after the six bookings of one charge and acceptance variant, exactly those six keys are added, all empty, and other entries are unchanged |
| QoverPtTask.AnalysisTaskEmcalQoverPtShift.BookCharge | PWGJE/EMCALJetTasks/Tracks/AliAnalysisTaskEmcalQoverPtShift.cxx:85-98 | one pass of the charge loop adds exactly the twelve keys of that charge, all empty |
| QoverPtTask.AnalysisTaskEmcalQoverPtShift.UserCreateOutputObjects | PWGJE/EMCALJetTasks/Tracks/AliAnalysisTaskEmcalQoverPtShift.cxx:79-109 | afterwards all 24 histograms exist and are empty with their booked axes, and the scan-shift list is exactly the bin centres of the scan axis; it is cleared first, so a repeated setup leaves no stale entries |
| QoverPtTask.AnalysisTaskEmcalQoverPtShift.Fill | PWGJE/EMCALJetTasks/Tracks/AliAnalysisTaskEmcalQoverPtShift.cxx:141 | one fill appends the point to one histogram |
| QoverPtTask.AnalysisTaskEmcalQoverPtShift.FillScopes | PWGJE/EMCALJetTasks/Tracks/AliAnalysisTaskEmcalQoverPtShift.cxx:141-147 | fills the inclusive histogram, then the Global one for a global track and the Complementary one for a complementary track |
| QoverPtTask.AnalysisTaskEmcalQoverPtShift.FillSelected | PWGJE/EMCALJetTasks/Tracks/AliAnalysisTaskEmcalQoverPtShift.cxx:141-156 | fills exactly the targets of the track's class, the EMCAL variants only inside the acceptance |
| QoverPtTask.AnalysisTaskEmcalQoverPtShift.FillTrack | PWGJE/EMCALJetTasks/Tracks/AliAnalysisTaskEmcalQoverPtShift.cxx:132-180 | one pass of the track loop makes exactly the track's plain fills, then its scan fills for each scan shift in list order |
| QoverPtTask.AnalysisTaskEmcalQoverPtShift.Run | PWGJE/EMCALJetTasks/Tracks/AliAnalysisTaskEmcalQoverPtShift.cxx:111-183 | returns true if and only if the task has a track container attached; without one no histogram changes; with one the registry receives the fills of every track the container accepts, in order |
| QoverPtTask.AddTaskQOverPtShift | PWGJE/EMCALJetTasks/Tracks/AliAnalysisTaskEmcalQoverPtShift.cxx:195-242 | a task is made if and only if a manager exists, the input is AOD or ESD and the trigger is known; it is named "QOverPtTask_<tag>_<trigger>", reads "tracks" (AOD) or "Tracks" (ESD), and carries the shift, trigger bits and trigger string |

## Left out

- ShiftTransform.ShiftedPt: stated over exact reals. IEEE double rounding is not modelled. The function requires `Shiftable`. The fill path (`FillRouting.ShiftedValue`) follows the double results at the edges: a zero pt gives 0 (1/inf), and a zero shifted inverse gives an infinity, recorded as `Singular` without its sign.
- ScanGrid.Centers: the centres, and the 2e-5 steps of `DefaultGrid`, are exact over reals. In doubles the computed centres differ from these values in the last bits.
- TaskConfig.ShiftTag: `shift * 1e5` is computed exactly. The floating-point rounding of that product is not modelled, and neither is the overflow of the int conversion for shifts beyond about 21474. So the tags can differ from the original's: in doubles 3e-4 * 1e5 is 29.999999999999996, so the original tags shift 3e-4 as "p00029", while `ShiftTag` gives "p00030".
- Histograms.NewHist: a histogram is modelled as its two axes plus the list of filled points. Binning, under/overflow, titles and weights of the underlying ROOT histograms are not modelled.
- ScanGrid.BinCenter: the bin centres are those of a fixed-width axis. ROOT's handling of an axis booked with a non-positive bin count is not modelled: such an axis yields an empty list here.
- The trigger bit values kINT7, kEMCEJE and kEMCEGA come from the framework's event interface. That header is not part of this model; only the mapping at lines 215-223 is.
- The base class's setup (line 80), adding every histogram to the output list and posting it (lines 106-108) are not modelled. Neither is the output file and container wiring of the factory (lines 234-239), nor `SetNeedEmcalGeom` (lines 58, 72).
- The default constructor (lines 47-59) is not modelled separately. It sets the same defaults as the named constructor.
- The EMCAL geometry is not modelled. The acceptance bounds, already converted from degrees to radians, are passed to `Run` as a `PhiRange`.
- The track container is reduced to its name (`trackContainer`, set by the factory) and, per event, the sequence of tracks it accepts, each carrying its track type; `Run` fills them only when a container is attached. The error message of lines 113-114 is not modelled.
- The registry is a map, which has no order. The order in which the histograms are booked is stated by `Histograms.BookingOrder`, and the calls in `BookGroup` follow it, but no method contract refers to it.
- Histograms are looked up by key, not by name. The keys and names are proved to correspond one to one (`HistNameRoundTrip`, `HistNameInjective`).
- The absolute value of pt at line 139 is taken to be the floating-point one. The call there is unqualified, while line 138 uses `std::abs`.
- The analysis manager is reduced to a flag saying whether one exists, and its input handler to an enumeration (AOD, ESD, other). A missing input handler is dereferenced at line 204 before the branch at lines 210-212 is reached, so the original crashes in that case; here it falls under "other" and gives no task. Registering the task with the manager (line 232) and the console messages are not modelled.
- QoverPtTask.AnalysisTaskEmcalQoverPtShift.IsTriggerSelected: the event's selection mask and fired trigger classes are parameters. Its meaning is stated by `TaskConfig.TriggerSelectedMeaning`.
