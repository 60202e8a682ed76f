/** The analysis task itself: its configuration fields, the histogram
    booking and bin-centre list built at setup, the per-event track loop that
    fills the histograms, the trigger test, and the task factory.

    The framework around it (analysis manager, event loop, output
    containers, EMCAL geometry) is reduced to parameters: whether a manager
    exists and which input handler it has, the tracks the attached container
    accepts in the event, and the EMCAL azimuthal acceptance in radians. */
module QoverPtTask {
  import opened Options
  import opened ScanGrid
  import opened Histograms
  import opened FillRouting
  import opened TaskConfig

  /** The kind of input handler the analysis manager was set up with. */
  datatype InputHandler = AodHandler | EsdHandler | OtherHandler

  class AnalysisTaskEmcalQoverPtShift {
    var name: string
    /** The fixed q/pt shift of the plain histograms. */
    var qOverPtShift: real
    var triggerBits: bv32
    var triggerString: string
    /** The scan axis: bin count and range of the q/pt shifts scanned. */
    var scanBins: int
    var scanMin: real
    var scanMax: real
    /** The scan shifts, one per bin of the scan axis. */
    var binCenters: seq<real>
    /** The histogram registry; empty until the output objects are created. */
    var histos: map<HistKey, Hist>
    /** Name of the input track collection attached as the "detector"
        container, if any. */
    var trackContainer: Option<string>

    /** A task with the default configuration: no shift, no trigger, a scan
        of 100 bins over [-1e-3, 1e-3], and nothing booked yet. */
    constructor (name: string)
      ensures this.name == name
      ensures qOverPtShift == 0.0 && triggerBits == 0 && triggerString == ""
      ensures ScanAxis() == DefaultScanAxis()
      ensures binCenters == [] && histos == map[] && trackContainer == None
    {
      this.name := name;
      qOverPtShift := 0.0;
      triggerBits := 0;
      triggerString := "";
      scanBins := 100;
      scanMin := -0.001;
      scanMax := 0.001;
      binCenters := [];
      histos := map[];
      trackContainer := None;
    }

    /** The x axis every scan histogram is booked with. */
    function ScanAxis(): Axis
      reads this
    {
      Axis(scanBins, scanMin, scanMax)
    }

    /** Books an empty histogram under key k. */
    method Book(k: HistKey)
      modifies this`histos
      ensures histos == old(histos)[k := NewHist(k, ScanAxis())]
    {
      histos := histos[k := NewHist(k, ScanAxis())];
    }

    /** Books the twelve histograms of charge c, in the order of the source:
        the six in full acceptance, then the six restricted to the EMCAL
        acceptance. */
    method BookCharge(c: Charge)
      modifies this`histos
      ensures forall k: HistKey :: k in histos <==> k in old(histos) || k.charge == c
      ensures forall k :: k in histos ==> histos[k] == if k.charge == c then NewHist(k, ScanAxis()) else old(histos)[k]
    {
      BookGroup(c, false);
      BookGroup(c, true);
    }

    /** Books the plain then the scan histograms of charge c in one acceptance
        variant: inclusive, Global, Complementary each. */
    method BookGroup(c: Charge, emcal: bool)
      modifies this`histos
      ensures forall k: HistKey :: k in histos <==> k in old(histos) || (k.charge == c && k.emcal == emcal)
      ensures forall k :: k in histos ==>
                histos[k] == if k.charge == c && k.emcal == emcal then NewHist(k, ScanAxis()) else old(histos)[k]
    {
      Book(HistKey(c, Plain, Inclusive, emcal));
      Book(HistKey(c, Plain, Global, emcal));
      Book(HistKey(c, Plain, Complementary, emcal));
      Book(HistKey(c, Scan, Inclusive, emcal));
      Book(HistKey(c, Scan, Global, emcal));
      Book(HistKey(c, Scan, Complementary, emcal));
      assert GroupKeys(c, emcal) <= histos.Keys;
      forall k: HistKey | k.charge == c && k.emcal == emcal ensures k in histos && histos[k] == NewHist(k, ScanAxis()) {
        InGroupKeys(k);
      }
    }

    /** Books the 24 histograms, twelve per charge, then rebuilds the list of
        scan shifts from the x axis of the positive inclusive scan histogram:
        the list is cleared first, so repeating the setup leaves no stale
        entries. */
    method UserCreateOutputObjects()
      modifies this`histos, this`binCenters
      ensures Complete(histos)
      ensures forall k: HistKey :: histos[k] == NewHist(k, ScanAxis())
      ensures binCenters == Centers(ScanAxis())
    {
      histos := map[];
      var chargetypes := [Pos, Neg];
      for ci := 0 to 2
        invariant forall k: HistKey :: k in histos <==> ChargeIndex(k.charge) < ci
        invariant forall k :: k in histos ==> histos[k] == NewHist(k, ScanAxis())
      {
        var c := chargetypes[ci];
        assert ChargeIndex(c) == ci;
        BookCharge(c);
      }
      assert forall k: HistKey :: ChargeIndex(k.charge) < 2;

      binCenters := [];
      var axis := histos[HistKey(Pos, Scan, Inclusive, false)].xAxis;
      var ib := 0;
      while ib < axis.nbins
        modifies this`binCenters
        invariant 0 <= ib <= NumBins(axis)
        invariant binCenters == Centers(axis)[..ib]
      {
        binCenters := binCenters + [BinCenter(axis, ib + 1)];
        ib := ib + 1;
      }
    }

    /** One fill of histogram k. */
    method Fill(k: HistKey, p: Point)
      requires Complete(histos)
      modifies this`histos
      ensures Complete(histos)
      ensures histos == Record(old(histos), Entry(k, p))
    {
      histos := histos[k := histos[k].(points := histos[k].points + [p])];
    }

    /** Fills p into the histograms of one kind that the gating selects for a
        track of class cls: inclusive, Global, Complementary, and the same
        three EMCAL variants inside the acceptance. */
    method FillSelected(kind: Kind, cls: TrackClass, p: Point)
      requires Complete(histos)
      modifies this`histos
      ensures Complete(histos)
      ensures histos == Apply(old(histos), FanOut(Targets(cls, kind), p))
    {
      FillScopes(cls.charge, kind, false, cls.global, cls.comp, p);
      if cls.emcal {
        FillScopes(cls.charge, kind, true, cls.global, cls.comp, p);
        ApplyFanOutConcat(old(histos), ScopeTargets(cls.charge, kind, false, cls.global, cls.comp),
                          ScopeTargets(cls.charge, kind, true, cls.global, cls.comp), p);
      } else {
        assert Targets(cls, kind) == ScopeTargets(cls.charge, kind, false, cls.global, cls.comp);
      }
    }

    /** The inclusive fill, then the Global fill for a global track and the
        Complementary fill for a complementary one, all in one acceptance
        variant. */
    method FillScopes(c: Charge, kind: Kind, emcal: bool, global: bool, comp: bool, p: Point)
      requires Complete(histos)
      modifies this`histos
      ensures Complete(histos)
      ensures histos == Apply(old(histos), FanOut(ScopeTargets(c, kind, emcal, global, comp), p))
    {
      var ki := [HistKey(c, kind, Inclusive, emcal)];
      var kg := if global then [HistKey(c, kind, Global, emcal)] else [];
      var kc := if comp then [HistKey(c, kind, Complementary, emcal)] else [];
      ghost var h0 := histos;
      Fill(ki[0], p);
      ApplyFanOutSingle(h0, ki, p);
      assert histos == Apply(h0, FanOut(ki, p));
      ghost var h1 := histos;
      if global {
        Fill(kg[0], p);
      }
      ApplyFanOutSingle(h1, kg, p);
      assert histos == Apply(h1, FanOut(kg, p));
      ApplyFanOutConcat(h0, ki, kg, p);
      assert histos == Apply(h0, FanOut(ki + kg, p));
      ghost var h2 := histos;
      if comp {
        Fill(kc[0], p);
      }
      ApplyFanOutSingle(h2, kc, p);
      assert histos == Apply(h2, FanOut(kc, p));
      ApplyFanOutConcat(h0, ki + kg, kc, p);
      assert histos == Apply(h0, FanOut(ki + kg + kc, p));
      assert ScopeTargets(c, kind, emcal, global, comp) == ki + kg + kc;
    }

    /** The body of the track loop for one track: classify it, fill the
        plain histograms with (pt, shifted pt), then the scan histograms with
        (shift, shifted pt at that shift) for every scan shift. */
    method FillTrack(t: Track, acc: PhiRange)
      requires Complete(histos)
      modifies this`histos
      ensures Complete(histos)
      ensures histos == Apply(old(histos), TrackFills(t, acc, qOverPtShift, binCenters))
    {
      var cls := Classify(t, acc);
      var ptorig := Abs(t.pt);
      var ptshift := ShiftedValue(ptorig, qOverPtShift, cls.charge);
      FillSelected(Plain, cls, Point(ptorig, ptshift));
      ghost var plain := FanOut(Targets(cls, Plain), Point(ptorig, ptshift));
      assert plain + ScanFills(t, cls, binCenters[..0]) == plain;
      var j := 0;
      while j < |binCenters|
        invariant 0 <= j <= |binCenters|
        invariant Complete(histos)
        invariant histos == Apply(old(histos), plain + ScanFills(t, cls, binCenters[..j]))
      {
        var s := binCenters[j];
        FillSelected(Scan, cls, Point(s, ShiftedValue(ptorig, s, cls.charge)));
        ScanStep(old(histos), plain, t, cls, binCenters, j);
        j := j + 1;
      }
      assert binCenters[..|binCenters|] == binCenters;
    }

    /** Processes one event: without an attached track container nothing
        is filled and the result is false; otherwise every track the
        container accepts in this event (`accepted`) is filled, in order, and
        the result is true. */
    method Run(accepted: seq<Track>, acc: PhiRange) returns (ok: bool)
      requires Complete(histos)
      modifies this`histos
      ensures ok <==> trackContainer.Some?
      ensures Complete(histos)
      ensures !ok ==> histos == old(histos)
      ensures ok ==> histos == Apply(old(histos), RunFills(accepted, acc, qOverPtShift, binCenters))
    {
      if trackContainer.None? {
        return false;
      }
      var i := 0;
      while i < |accepted|
        invariant 0 <= i <= |accepted|
        invariant Complete(histos)
        invariant histos == Apply(old(histos), RunFills(accepted[..i], acc, qOverPtShift, binCenters))
      {
        FillTrack(accepted[i], acc);
        TrackStep(old(histos), accepted, acc, qOverPtShift, binCenters, i);
        i := i + 1;
      }
      assert accepted[..|accepted|] == accepted;
      return true;
    }

    /** The event passes the task's trigger selection. */
    predicate IsTriggerSelected(eventMask: bv32, firedClasses: string)
      reads this
    {
      TriggerSelected(eventMask, firedClasses, triggerBits, triggerString)
    }
  }

  /** Creates and configures a task for trigger class `trigger` and q/pt
      shift `shift`. No task is made without an analysis manager, with an
      input handler that is neither AOD nor ESD, or for an unknown trigger
      class. */
  method AddTaskQOverPtShift(managerPresent: bool, handler: InputHandler, trigger: string, shift: real)
    returns (task: AnalysisTaskEmcalQoverPtShift?)
    ensures task != null <==> managerPresent && handler != OtherHandler && TriggerBits(trigger) != 0
    ensures task != null ==> && fresh(task)
                             && task.name == TaskName(ShiftTag(shift), trigger)
                             && task.trackContainer == Some(if handler == AodHandler then "tracks" else "Tracks")
                             && task.qOverPtShift == shift
                             && task.triggerBits == TriggerBits(trigger)
                             && task.triggerString == trigger
                             && task.ScanAxis() == DefaultScanAxis()
                             && task.histos == map[] && task.binCenters == []
  {
    if !managerPresent {
      return null;
    }
    var trackName: string;
    if handler == AodHandler {
      trackName := "tracks";
    } else if handler == EsdHandler {
      trackName := "Tracks";
    } else {
      return null;
    }
    var bits := TriggerBits(trigger);
    if bits == 0 {
      return null;
    }
    task := new AnalysisTaskEmcalQoverPtShift(TaskName(ShiftTag(shift), trigger));
    task.trackContainer := Some(trackName);
    task.qOverPtShift := shift;
    task.triggerBits, task.triggerString := bits, trigger;
  }
}
