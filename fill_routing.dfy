/** Which histograms a track fills, and with what.

    For every accepted track the charge sign picks the "pos" or "neg"
    family; the inclusive histogram is always filled, the Global one for
    track type 0 and the Complementary one for track type 1; the EMCAL
    variants repeat this when the track is inside the EMCAL acceptance. The
    plain histograms get one point (pt, shifted pt); the scan histograms, with
    the same gating, get one point (shift, shifted pt at that shift) per scan
    shift. This module states the fills of a track and of a track sequence as
    a sequence of `Entry` values, in the order the source makes them. */
module FillRouting {
  import opened ShiftTransform
  import opened Histograms

  /** An accepted track: charge, transverse momentum, pseudorapidity,
      azimuth (radians) and the reconstruction category reported by the
      track container (0 global, 1 complementary, anything else other). */
  datatype Track = Track(charge: int, pt: real, eta: real, phi: real, trackType: int)

  /** The azimuthal EMCAL acceptance, in radians. */
  datatype PhiRange = PhiRange(min: real, max: real)

  /** What the track loop derives from a track before filling. */
  datatype TrackClass = TrackClass(charge: Charge, global: bool, comp: bool, emcal: bool)

  function Abs(x: real): real {
    if x < 0.0 then -x else x
  }

  /** |eta| < 0.7 (strict) and the azimuth within the bounds (inclusive). */
  predicate InEmcalAcceptance(t: Track, acc: PhiRange) {
    Abs(t.eta) < 0.7 && acc.min <= t.phi && t.phi <= acc.max
  }

  function Classify(t: Track, acc: PhiRange): TrackClass {
    TrackClass(if t.charge > 0 then Pos else Neg, t.trackType == 0, t.trackType == 1, InEmcalAcceptance(t, acc))
  }

  /** The transform as the fill path evaluates it in double precision: a
      zero pt makes 1/pt infinite and the result 1/inf = 0; otherwise a real
      where the shifted inverse is non-zero, and the infinite value where it
      is zero (which is still filled). */
  function ShiftedValue(pt: real, shift: real, c: Charge): (v: PtValue)
    ensures pt == 0.0 ==> v == Finite(0.0)
    ensures v == Singular <==> pt != 0.0 && shift * ChargeValue(c) + 1.0 / pt == 0.0
    ensures v.Finite? && pt != 0.0 ==> v.value != 0.0 && 1.0 / v.value == 1.0 / pt + shift * ChargeValue(c)
  {
    if pt == 0.0 then Finite(0.0)
    else if Shiftable(pt, shift, ChargeValue(c)) then Finite(ShiftedPt(pt, shift, ChargeValue(c)))
    else Singular
  }

  /** The point a plain histogram receives: (pt, pt shifted by `shift`). */
  function PlainPoint(t: Track, c: Charge, shift: real): Point {
    Point(Abs(t.pt), ShiftedValue(Abs(t.pt), shift, c))
  }

  /** The point a scan histogram receives at scan shift s. */
  function ScanPoint(t: Track, c: Charge, s: real): Point {
    Point(s, ShiftedValue(Abs(t.pt), s, c))
  }

  /** The gating of the track loop: a track of class cls fills histogram k. */
  predicate Selected(cls: TrackClass, k: HistKey) {
    && k.charge == cls.charge
    && (k.scope == Inclusive || (k.scope == Global && cls.global) || (k.scope == Complementary && cls.comp))
    && (k.emcal ==> cls.emcal)
  }

  /** The inclusive, Global and Complementary histograms of one kind and
      one acceptance variant that a track fills, in fill order. */
  function ScopeTargets(c: Charge, kind: Kind, emcal: bool, global: bool, comp: bool): seq<HistKey> {
    [HistKey(c, kind, Inclusive, emcal)]
    + (if global then [HistKey(c, kind, Global, emcal)] else [])
    + (if comp then [HistKey(c, kind, Complementary, emcal)] else [])
  }

  /** The histograms of one kind a track of class cls fills, in fill order:
      the full-acceptance ones, then, inside the EMCAL acceptance, the EMCAL
      variants. */
  function Targets(cls: TrackClass, kind: Kind): seq<HistKey> {
    ScopeTargets(cls.charge, kind, false, cls.global, cls.comp)
    + (if cls.emcal then ScopeTargets(cls.charge, kind, true, cls.global, cls.comp) else [])
  }

  /** The same point filled into each of `ks`, in order. */
  function FanOut(ks: seq<HistKey>, p: Point): (es: seq<Entry>)
    ensures |es| == |ks|
    ensures forall i :: 0 <= i < |ks| ==> es[i] == Entry(ks[i], p)
  {
    if ks == [] then [] else FanOut(ks[..|ks| - 1], p) + [Entry(ks[|ks| - 1], p)]
  }

  /** Filling one more histogram with the same point is one more `Record`. */
  lemma ApplyFanOutSnoc(h: map<HistKey, Hist>, ks: seq<HistKey>, k: HistKey, p: Point)
    requires Complete(h)
    ensures Apply(h, FanOut(ks + [k], p)) == Record(Apply(h, FanOut(ks, p)), Entry(k, p))
  {
    assert (ks + [k])[..|ks|] == ks;
    assert FanOut(ks + [k], p) == FanOut(ks, p) + [Entry(k, p)];
    assert (FanOut(ks, p) + [Entry(k, p)])[..|ks|] == FanOut(ks, p);
  }

  /** Filling one histogram is one `Record`; filling none changes nothing. */
  lemma ApplyFanOutSingle(h: map<HistKey, Hist>, ks: seq<HistKey>, p: Point)
    requires Complete(h)
    requires |ks| <= 1
    ensures Apply(h, FanOut(ks, p)) == if ks == [] then h else Record(h, Entry(ks[0], p))
  {
    var es := FanOut(ks, p);
    if ks != [] {
      assert es == [Entry(ks[0], p)];
      assert es[..0] == [];
    } else {
      assert es == [];
    }
  }

  /** Filling two groups of histograms in turn is filling their concatenation. */
  lemma ApplyFanOutConcat(h: map<HistKey, Hist>, a: seq<HistKey>, b: seq<HistKey>, p: Point)
    requires Complete(h)
    ensures Apply(h, FanOut(a + b, p)) == Apply(Apply(h, FanOut(a, p)), FanOut(b, p))
  {
    assert FanOut(a + b, p) == FanOut(a, p) + FanOut(b, p);
    ApplyConcat(h, FanOut(a, p), FanOut(b, p));
  }

  /** The scan fills of a track, scan shift by scan shift. */
  function ScanFills(t: Track, cls: TrackClass, shifts: seq<real>): seq<Entry>
    decreases |shifts|
  {
    if shifts == [] then []
    else ScanFills(t, cls, shifts[..|shifts| - 1]) + FanOut(Targets(cls, Scan), ScanPoint(t, cls.charge, shifts[|shifts| - 1]))
  }

  /** All fills of one track: the plain fills, then the scan fills. */
  function TrackFills(t: Track, acc: PhiRange, shift: real, shifts: seq<real>): seq<Entry> {
    var cls := Classify(t, acc);
    FanOut(Targets(cls, Plain), PlainPoint(t, cls.charge, shift)) + ScanFills(t, cls, shifts)
  }

  /** All fills of a track sequence, track by track. */
  function RunFills(ts: seq<Track>, acc: PhiRange, shift: real, shifts: seq<real>): seq<Entry>
    decreases |ts|
  {
    if ts == [] then []
    else RunFills(ts[..|ts| - 1], acc, shift, shifts) + TrackFills(ts[|ts| - 1], acc, shift, shifts)
  }

  /** One more scan shift appends its fan-out to the fills made so far. */
  lemma ScanStep(h: map<HistKey, Hist>, plain: seq<Entry>, t: Track, cls: TrackClass, shifts: seq<real>, j: int)
    requires Complete(h)
    requires 0 <= j < |shifts|
    ensures Apply(h, plain + ScanFills(t, cls, shifts[..j + 1]))
         == Apply(Apply(h, plain + ScanFills(t, cls, shifts[..j])),
                  FanOut(Targets(cls, Scan), ScanPoint(t, cls.charge, shifts[j])))
  {
    var step := FanOut(Targets(cls, Scan), ScanPoint(t, cls.charge, shifts[j]));
    assert shifts[..j + 1][..j] == shifts[..j];
    assert ScanFills(t, cls, shifts[..j + 1]) == ScanFills(t, cls, shifts[..j]) + step;
    assert plain + ScanFills(t, cls, shifts[..j + 1]) == (plain + ScanFills(t, cls, shifts[..j])) + step;
    ApplyConcat(h, plain + ScanFills(t, cls, shifts[..j]), step);
  }

  /** One more track appends its fills to the fills made so far. */
  lemma TrackStep(h: map<HistKey, Hist>, ts: seq<Track>, acc: PhiRange, shift: real, shifts: seq<real>, i: int)
    requires Complete(h)
    requires 0 <= i < |ts|
    ensures Apply(h, RunFills(ts[..i + 1], acc, shift, shifts))
         == Apply(Apply(h, RunFills(ts[..i], acc, shift, shifts)), TrackFills(ts[i], acc, shift, shifts))
  {
    assert ts[..i + 1][..i] == ts[..i];
    ApplyConcat(h, RunFills(ts[..i], acc, shift, shifts), TrackFills(ts[i], acc, shift, shifts));
  }

  // ---------------------------------------------------------------------
  // Classification

  /** The charge sign is + exactly for Charge() > 0; a track is never both
      global and complementary. */
  lemma ClassifyProperties(t: Track, acc: PhiRange)
    ensures Classify(t, acc).charge == Pos <==> t.charge > 0
    ensures !(Classify(t, acc).global && Classify(t, acc).comp)
    ensures Classify(t, acc).emcal <==> -0.7 < t.eta < 0.7 && acc.min <= t.phi <= acc.max
  {
  }

  /** With no shift configured, a plain histogram receives the diagonal
      point (pt, pt) from every track of non-zero pt. */
  lemma ZeroShiftDiagonal(t: Track, c: Charge)
    requires t.pt != 0.0
    ensures PlainPoint(t, c, 0.0) == Point(Abs(t.pt), Finite(Abs(t.pt)))
  {
    ZeroShiftIsIdentity(Abs(t.pt), ChargeValue(c));
  }

  // ---------------------------------------------------------------------
  // The fill targets

  /** A histogram is among the targets exactly when it has that kind and the
      gating selects it. */
  lemma TargetsAreSelected(cls: TrackClass, kind: Kind, k: HistKey)
    ensures k in Targets(cls, kind) <==> k.kind == kind && Selected(cls, k)
  {
    var c := cls.charge;
    if k.kind == kind && Selected(cls, k) {
      match k.scope {
        case Inclusive =>
          if k.emcal {
            assert Targets(cls, kind)[|Targets(cls, kind)| - 1 - (if cls.global then 1 else 0) - (if cls.comp then 1 else 0)] == k;
          } else {
            assert Targets(cls, kind)[0] == k;
          }
        case Global =>
          if k.emcal {
            assert Targets(cls, kind)[|Targets(cls, kind)| - 1 - (if cls.comp then 1 else 0)] == k;
          } else {
            assert Targets(cls, kind)[1] == k;
          }
        case Complementary =>
          if k.emcal {
            assert Targets(cls, kind)[|Targets(cls, kind)| - 1] == k;
          } else {
            assert Targets(cls, kind)[if cls.global then 2 else 1] == k;
          }
      }
    }
  }

  function B(b: bool): nat {
    if b then 1 else 0
  }

  /** No histogram is filled twice for the same point, and the number of
      histograms filled is (1 + [global] + [comp]) * (1 + [emcal]). */
  lemma TargetsCount(cls: TrackClass, kind: Kind)
    ensures |Targets(cls, kind)| == (1 + B(cls.global) + B(cls.comp)) * (1 + B(cls.emcal))
    ensures forall i, j :: 0 <= i < j < |Targets(cls, kind)| ==> Targets(cls, kind)[i] != Targets(cls, kind)[j]
  {
  }

  // ---------------------------------------------------------------------
  // Per-histogram view of the fills

  lemma {:induction false} ProjectFanOut(ks: seq<HistKey>, p: Point, k: HistKey)
    requires forall i, j :: 0 <= i < j < |ks| ==> ks[i] != ks[j]
    ensures Project(FanOut(ks, p), k) == if k in ks then [p] else []
    decreases |ks|
  {
    if ks != [] {
      var ks' := ks[..|ks| - 1];
      assert FanOut(ks, p)[..|ks| - 1] == FanOut(ks', p);
      ProjectFanOut(ks', p, k);
      assert k in ks <==> k in ks' || k == ks[|ks| - 1];
      if k == ks[|ks| - 1] {
        assert k !in ks';
      }
    }
  }

  /** The points a selected scan histogram receives: one per scan shift. */
  function ScanPoints(t: Track, c: Charge, shifts: seq<real>): (ps: seq<Point>)
    ensures |ps| == |shifts|
    ensures forall i :: 0 <= i < |shifts| ==> ps[i] == Point(shifts[i], ShiftedValue(Abs(t.pt), shifts[i], c))
    decreases |shifts|
  {
    if shifts == [] then []
    else ScanPoints(t, c, shifts[..|shifts| - 1]) + [ScanPoint(t, c, shifts[|shifts| - 1])]
  }

  /** The points histogram k receives from one track. */
  function TrackPoints(t: Track, acc: PhiRange, shift: real, shifts: seq<real>, k: HistKey): seq<Point> {
    var cls := Classify(t, acc);
    if !Selected(cls, k) then []
    else if k.kind == Plain then [PlainPoint(t, cls.charge, shift)]
    else ScanPoints(t, cls.charge, shifts)
  }

  lemma {:induction false} ProjectScanFills(t: Track, cls: TrackClass, shifts: seq<real>, k: HistKey)
    ensures k.kind == Scan && Selected(cls, k) ==> Project(ScanFills(t, cls, shifts), k) == ScanPoints(t, cls.charge, shifts)
    ensures !(k.kind == Scan && Selected(cls, k)) ==> Project(ScanFills(t, cls, shifts), k) == []
    decreases |shifts|
  {
    if shifts != [] {
      var n := |shifts| - 1;
      var front := shifts[..n];
      var p := ScanPoint(t, cls.charge, shifts[n]);
      ProjectScanFills(t, cls, front, k);
      ProjectConcat(ScanFills(t, cls, front), FanOut(Targets(cls, Scan), p), k);
      TargetsCount(cls, Scan);
      ProjectFanOut(Targets(cls, Scan), p, k);
      TargetsAreSelected(cls, Scan, k);
    }
  }

  /** Histogram k receives from one track exactly `TrackPoints`: one point
      (pt, shifted pt) for a selected plain histogram, one point per scan
      shift for a selected scan histogram, and nothing otherwise. */
  lemma TrackFillsPerHistogram(t: Track, acc: PhiRange, shift: real, shifts: seq<real>, k: HistKey)
    ensures Project(TrackFills(t, acc, shift, shifts), k) == TrackPoints(t, acc, shift, shifts, k)
  {
    var cls := Classify(t, acc);
    var p := PlainPoint(t, cls.charge, shift);
    ProjectConcat(FanOut(Targets(cls, Plain), p), ScanFills(t, cls, shifts), k);
    TargetsCount(cls, Plain);
    ProjectFanOut(Targets(cls, Plain), p, k);
    TargetsAreSelected(cls, Plain, k);
    ProjectScanFills(t, cls, shifts, k);
  }

  lemma {:induction false} ScanFillsCount(t: Track, cls: TrackClass, shifts: seq<real>)
    ensures |ScanFills(t, cls, shifts)| == |shifts| * |Targets(cls, Scan)|
    decreases |shifts|
  {
    if shifts != [] {
      ScanFillsCount(t, cls, shifts[..|shifts| - 1]);
    }
  }

  lemma {:induction false} ScanFillsSelected(t: Track, cls: TrackClass, shifts: seq<real>, e: Entry)
    requires e in ScanFills(t, cls, shifts)
    ensures e.key.kind == Scan && Selected(cls, e.key)
    decreases |shifts|
  {
    var n := |shifts| - 1;
    var fan := FanOut(Targets(cls, Scan), ScanPoint(t, cls.charge, shifts[n]));
    if e in fan {
      TargetsAreSelected(cls, Scan, e.key);
    } else {
      ScanFillsSelected(t, cls, shifts[..n], e);
    }
  }

  /** One track makes (1 + [global] + [comp]) * (1 + [emcal]) plain fills and
      N times as many scan fills, every one of them into a histogram of the
      track's charge family that the gating selects. */
  lemma TrackFillsShape(t: Track, acc: PhiRange, shift: real, shifts: seq<real>)
    ensures var cls := Classify(t, acc);
            var plain := (1 + B(cls.global) + B(cls.comp)) * (1 + B(cls.emcal));
            |TrackFills(t, acc, shift, shifts)| == plain + |shifts| * plain
    ensures forall e :: e in TrackFills(t, acc, shift, shifts) ==> Selected(Classify(t, acc), e.key)
  {
    var cls := Classify(t, acc);
    TargetsCount(cls, Plain);
    TargetsCount(cls, Scan);
    ScanFillsCount(t, cls, shifts);
    var fan := FanOut(Targets(cls, Plain), PlainPoint(t, cls.charge, shift));
    forall e | e in TrackFills(t, acc, shift, shifts) ensures Selected(cls, e.key) {
      if e in fan {
        TargetsAreSelected(cls, Plain, e.key);
      } else {
        ScanFillsSelected(t, cls, shifts, e);
      }
    }
  }

  /** Charge routing is exclusive: a positive track fills only "pos"
      histograms and a negative (or neutral) one only "neg" histograms. */
  lemma ChargeRouting(t: Track, acc: PhiRange, shift: real, shifts: seq<real>, e: Entry)
    requires e in TrackFills(t, acc, shift, shifts)
    ensures e.key.charge == Pos <==> t.charge > 0
  {
    TrackFillsShape(t, acc, shift, shifts);
  }

  /** A track outside the EMCAL acceptance fills no EMCAL histogram. */
  lemma OutsideAcceptanceNoEmcal(t: Track, acc: PhiRange, shift: real, shifts: seq<real>, e: Entry)
    requires !InEmcalAcceptance(t, acc)
    requires e in TrackFills(t, acc, shift, shifts)
    ensures !e.key.emcal
  {
    TrackFillsShape(t, acc, shift, shifts);
  }

  // ---------------------------------------------------------------------
  // Effect on the registry

  /** After the fills of one track, histogram k holds its old points followed
      by `TrackPoints`; histograms the gating does not select are unchanged. */
  lemma TrackEffect(h: map<HistKey, Hist>, t: Track, acc: PhiRange, shift: real, shifts: seq<real>, k: HistKey)
    requires Complete(h)
    ensures Apply(h, TrackFills(t, acc, shift, shifts))[k]
         == h[k].(points := h[k].points + TrackPoints(t, acc, shift, shifts, k))
    ensures !Selected(Classify(t, acc), k) ==> Apply(h, TrackFills(t, acc, shift, shifts))[k] == h[k]
  {
    ApplyPoints(h, TrackFills(t, acc, shift, shifts), k);
    TrackFillsPerHistogram(t, acc, shift, shifts, k);
  }

  lemma {:induction false} RunFillsConcat(a: seq<Track>, b: seq<Track>, acc: PhiRange, shift: real, shifts: seq<real>)
    ensures RunFills(a + b, acc, shift, shifts) == RunFills(a, acc, shift, shifts) + RunFills(b, acc, shift, shifts)
    decreases |b|
  {
    if b == [] {
      assert a + b == a;
    } else {
      var b' := b[..|b| - 1];
      var last := b[|b| - 1];
      assert (a + b)[..|a + b| - 1] == a + b';
      assert (a + b)[|a + b| - 1] == last;
      assert RunFills(a + b, acc, shift, shifts) == RunFills(a + b', acc, shift, shifts) + TrackFills(last, acc, shift, shifts);
      RunFillsConcat(a, b', acc, shift, shifts);
      assert RunFills(b, acc, shift, shifts) == RunFills(b', acc, shift, shifts) + TrackFills(last, acc, shift, shifts);
    }
  }

  /** Processing the same tracks twice gives every histogram its points twice. */
  lemma RunTwiceDoubles(ts: seq<Track>, acc: PhiRange, shift: real, shifts: seq<real>, k: HistKey)
    ensures Project(RunFills(ts + ts, acc, shift, shifts), k)
         == Project(RunFills(ts, acc, shift, shifts), k) + Project(RunFills(ts, acc, shift, shifts), k)
  {
    RunFillsConcat(ts, ts, acc, shift, shifts);
    ProjectConcat(RunFills(ts, acc, shift, shifts), RunFills(ts, acc, shift, shifts), k);
  }

  /** The order in which two batches of tracks are processed does not change
      what any histogram holds, as a multiset of points. */
  lemma RunOrderIndependent(a: seq<Track>, b: seq<Track>, acc: PhiRange, shift: real, shifts: seq<real>, k: HistKey)
    ensures multiset(Project(RunFills(a + b, acc, shift, shifts), k))
         == multiset(Project(RunFills(b + a, acc, shift, shifts), k))
  {
    RunFillsConcat(a, b, acc, shift, shifts);
    RunFillsConcat(b, a, acc, shift, shifts);
    ProjectConcat(RunFills(a, acc, shift, shifts), RunFills(b, acc, shift, shifts), k);
    ProjectConcat(RunFills(b, acc, shift, shifts), RunFills(a, acc, shift, shifts), k);
  }

  /** The points histogram k receives from a track sequence: what each
      track sends it, track by track. */
  function RunPoints(ts: seq<Track>, acc: PhiRange, shift: real, shifts: seq<real>, k: HistKey): seq<Point>
    decreases |ts|
  {
    if ts == [] then []
    else RunPoints(ts[..|ts| - 1], acc, shift, shifts, k) + TrackPoints(ts[|ts| - 1], acc, shift, shifts, k)
  }

  /** Over a whole run, histogram k receives exactly the concatenation of
      what each track sends it. */
  lemma {:induction false} RunFillsPerHistogram(ts: seq<Track>, acc: PhiRange, shift: real, shifts: seq<real>, k: HistKey)
    ensures Project(RunFills(ts, acc, shift, shifts), k) == RunPoints(ts, acc, shift, shifts, k)
    decreases |ts|
  {
    if ts != [] {
      var front, last := ts[..|ts| - 1], ts[|ts| - 1];
      RunFillsPerHistogram(front, acc, shift, shifts, k);
      ProjectConcat(RunFills(front, acc, shift, shifts), TrackFills(last, acc, shift, shifts), k);
      TrackFillsPerHistogram(last, acc, shift, shifts, k);
    }
  }

  /** A histogram that no track of the run selects receives nothing. */
  lemma {:induction false} RunPointsUnselected(ts: seq<Track>, acc: PhiRange, shift: real, shifts: seq<real>, k: HistKey)
    requires forall i :: 0 <= i < |ts| ==> !Selected(Classify(ts[i], acc), k)
    ensures RunPoints(ts, acc, shift, shifts, k) == []
    decreases |ts|
  {
    if ts != [] {
      var front := ts[..|ts| - 1];
      assert forall i :: 0 <= i < |front| ==> front[i] == ts[i];
      RunPointsUnselected(front, acc, shift, shifts, k);
    }
  }

  /** After a run, every histogram holds its old points followed by
      `RunPoints`, with its axes unchanged; one that no track selects is
      unchanged. */
  lemma RunEffect(h: map<HistKey, Hist>, ts: seq<Track>, acc: PhiRange, shift: real, shifts: seq<real>, k: HistKey)
    requires Complete(h)
    ensures Apply(h, RunFills(ts, acc, shift, shifts))[k]
         == h[k].(points := h[k].points + RunPoints(ts, acc, shift, shifts, k))
    ensures (forall i :: 0 <= i < |ts| ==> !Selected(Classify(ts[i], acc), k))
         ==> Apply(h, RunFills(ts, acc, shift, shifts))[k] == h[k]
  {
    ApplyPoints(h, RunFills(ts, acc, shift, shifts), k);
    RunFillsPerHistogram(ts, acc, shift, shifts, k);
    if forall i :: 0 <= i < |ts| ==> !Selected(Classify(ts[i], acc), k) {
      RunPointsUnselected(ts, acc, shift, shifts, k);
      assert h[k].points + [] == h[k].points;
    }
  }
}
