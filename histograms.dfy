/** The histogram registry of the task: 24 two-dimensional histograms,
    12 per charge sign, each identified by a key and by a name of the form
    fHist[Scan]Shift<pos|neg>[Global|Complementary][EMCAL].

    A histogram is modelled as its booked axes and the sequence of points it
    was filled with, not as bin contents. */
module Histograms {
  import opened Options
  import opened ScanGrid

  /** Charge sign of the track family a histogram belongs to. */
  datatype Charge = Pos | Neg

  /** Plain histograms record (original pt, shifted pt) at the configured
      shift; scan histograms record (scan shift, shifted pt at that shift). */
  datatype Kind = Plain | Scan

  /** Track category: all accepted tracks, global ones, complementary ones. */
  datatype Scope = Inclusive | Global | Complementary

  /** A histogram key; `emcal` marks the EMCAL-acceptance variant. */
  datatype HistKey = HistKey(charge: Charge, kind: Kind, scope: Scope, emcal: bool)

  /** The charge value the transform is evaluated with. */
  function ChargeValue(c: Charge): real {
    if c == Pos then 1.0 else -1.0
  }

  function ChargeName(c: Charge): string {
    if c == Pos then "pos" else "neg"
  }

  function KindName(k: Kind): string {
    if k == Scan then "Scan" else ""
  }

  function ScopeName(s: Scope): string {
    match s
    case Inclusive => ""
    case Global => "Global"
    case Complementary => "Complementary"
  }

  function EmcalName(emcal: bool): string {
    if emcal then "EMCAL" else ""
  }

  /** The name a histogram is booked and looked up under. */
  function HistName(k: HistKey): string {
    "fHist" + (KindName(k.kind) + ("Shift" + (ChargeName(k.charge) + (ScopeName(k.scope) + EmcalName(k.emcal)))))
  }

  // Reading a name back into a key, one component at a time.

  function ParseCharge(r: string): Option<(Charge, string)> {
    if "pos" <= r then Some((Pos, r[3..]))
    else if "neg" <= r then Some((Neg, r[3..]))
    else None
  }

  function ParseScope(r: string): (Scope, string) {
    if "Global" <= r then (Global, r[6..])
    else if "Complementary" <= r then (Complementary, r[13..])
    else (Inclusive, r)
  }

  function ParseEmcal(r: string): Option<bool> {
    if r == "EMCAL" then Some(true)
    else if r == "" then Some(false)
    else None
  }

  /** The key whose name is `name`, if there is one. */
  function ParseHistName(name: string): Option<HistKey> {
    if !("fHist" <= name) then None
    else
      var r := name[5..];
      var kind := if "Scan" <= r then Scan else Plain;
      var r := if kind == Scan then r[4..] else r;
      if !("Shift" <= r) then None
      else
        match ParseCharge(r[5..])
        case None => None
        case Some((charge, r)) =>
          var (scope, r) := ParseScope(r);
          match ParseEmcal(r)
          case None => None
          case Some(emcal) => Some(HistKey(charge, kind, scope, emcal))
  }

  lemma PrefixOfConcat(p: string, s: string)
    ensures p <= p + s && (p + s)[|p|..] == s
  {
  }

  lemma ParseChargeOfName(c: Charge, rest: string)
    ensures ParseCharge(ChargeName(c) + rest) == Some((c, rest))
  {
    PrefixOfConcat(ChargeName(c), rest);
    if c == Neg {
      assert (ChargeName(c) + rest)[0] == 'n';
    }
  }

  lemma ParseScopeOfName(s: Scope, emcal: bool)
    ensures ParseScope(ScopeName(s) + EmcalName(emcal)) == (s, EmcalName(emcal))
  {
    var e := EmcalName(emcal);
    var r := ScopeName(s) + e;
    PrefixOfConcat(ScopeName(s), e);
    match s {
      case Global =>
      case Complementary =>
        assert r[0] == 'C';
      case Inclusive =>
        assert r == e;
        if e != [] { assert e[0] == 'E'; }
    }
  }

  lemma ParseChargeSound(r: string, c: Charge, rest: string)
    requires ParseCharge(r) == Some((c, rest))
    ensures r == ChargeName(c) + rest
  {
  }

  lemma ParseScopeSound(r: string, s: Scope, rest: string)
    requires ParseScope(r) == (s, rest)
    ensures r == ScopeName(s) + rest
  {
  }

  /** Every histogram name reads back as its own key. */
  lemma HistNameRoundTrip(k: HistKey)
    ensures ParseHistName(HistName(k)) == Some(k)
  {
    var e := EmcalName(k.emcal);
    var se := ScopeName(k.scope) + e;
    var cse := ChargeName(k.charge) + se;
    var tail := "Shift" + cse;
    var ktail := KindName(k.kind) + tail;
    assert HistName(k) == "fHist" + ktail;
    PrefixOfConcat("fHist", ktail);
    if k.kind == Scan {
      PrefixOfConcat("Scan", tail);
    } else {
      assert ktail == tail;
      assert tail[1] == 'h';
    }
    PrefixOfConcat("Shift", cse);
    ParseChargeOfName(k.charge, se);
    ParseScopeOfName(k.scope, k.emcal);
  }

  /** A name reads back as a key only if it is that key's name. */
  lemma ParseHistNameSound(name: string, k: HistKey)
    requires ParseHistName(name) == Some(k)
    ensures HistName(k) == name
  {
    var r := name[5..];
    assert name == "fHist" + r;
    var r2 := if k.kind == Scan then r[4..] else r;
    assert r == KindName(k.kind) + r2;
    var r3 := r2[5..];
    assert r2 == "Shift" + r3;
    var cr := ParseCharge(r3);
    assert cr.Some? && cr.value.0 == k.charge;
    var r4 := cr.value.1;
    ParseChargeSound(r3, k.charge, r4);
    var (scope, r5) := ParseScope(r4);
    assert scope == k.scope;
    ParseScopeSound(r4, scope, r5);
    assert r5 == EmcalName(k.emcal);
  }

  /** Distinct keys have distinct names, so looking a histogram up by the
      name built from its key finds exactly that histogram. */
  lemma HistNameInjective(k1: HistKey, k2: HistKey)
    requires HistName(k1) == HistName(k2)
    ensures k1 == k2
  {
    HistNameRoundTrip(k1);
    HistNameRoundTrip(k2);
  }

  /** Position of a charge in the booking loop. */
  function ChargeIndex(c: Charge): nat {
    if c == Pos then 0 else 1
  }

  /** The six keys of one charge and one acceptance variant. */
  function GroupKeys(c: Charge, emcal: bool): set<HistKey> {
    { HistKey(c, Plain, Inclusive, emcal), HistKey(c, Plain, Global, emcal), HistKey(c, Plain, Complementary, emcal),
      HistKey(c, Scan, Inclusive, emcal), HistKey(c, Scan, Global, emcal), HistKey(c, Scan, Complementary, emcal) }
  }

  /** Every key is one of the six of its charge and acceptance variant. */
  lemma InGroupKeys(k: HistKey)
    ensures k in GroupKeys(k.charge, k.emcal)
  {
    var c, e := k.charge, k.emcal;
    match k.scope {
      case Inclusive =>
        if k.kind == Plain { assert k == HistKey(c, Plain, Inclusive, e); } else { assert k == HistKey(c, Scan, Inclusive, e); }
      case Global =>
        if k.kind == Plain { assert k == HistKey(c, Plain, Global, e); } else { assert k == HistKey(c, Scan, Global, e); }
      case Complementary =>
        if k.kind == Plain { assert k == HistKey(c, Plain, Complementary, e); } else { assert k == HistKey(c, Scan, Complementary, e); }
    }
  }

  /** The twelve histograms booked for one charge, in booking order. */
  function ChargeBlock(c: Charge): seq<HistKey> {
    [ HistKey(c, Plain, Inclusive, false), HistKey(c, Plain, Global, false), HistKey(c, Plain, Complementary, false),
      HistKey(c, Scan, Inclusive, false), HistKey(c, Scan, Global, false), HistKey(c, Scan, Complementary, false),
      HistKey(c, Plain, Inclusive, true), HistKey(c, Plain, Global, true), HistKey(c, Plain, Complementary, true),
      HistKey(c, Scan, Inclusive, true), HistKey(c, Scan, Global, true), HistKey(c, Scan, Complementary, true) ]
  }

  /** All histograms in booking order: the "pos" block, then the "neg" block. */
  function BookingOrder(): seq<HistKey> {
    ChargeBlock(Pos) + ChargeBlock(Neg)
  }

  /** Position of a key in the booking order. */
  function BookingIndex(k: HistKey): nat {
    (if k.charge == Neg then 12 else 0) + (if k.emcal then 6 else 0) + (if k.kind == Scan then 3 else 0)
      + (match k.scope case Inclusive => 0 case Global => 1 case Complementary => 2)
  }

  /** The booking order lists 24 histograms, each key exactly once. */
  lemma BookingOrderIsComplete()
    ensures |BookingOrder()| == 24
    ensures forall k: HistKey :: BookingIndex(k) < 24 && BookingOrder()[BookingIndex(k)] == k
    ensures forall i :: 0 <= i < 24 ==> BookingIndex(BookingOrder()[i]) == i
  {
    var order := BookingOrder();
    forall k: HistKey ensures BookingIndex(k) < 24 && order[BookingIndex(k)] == k {
      var b := ChargeBlock(k.charge);
      assert order[BookingIndex(k)] == b[BookingIndex(k) - (if k.charge == Neg then 12 else 0)];
    }
    forall i | 0 <= i < 24 ensures BookingIndex(order[i]) == i {
      if i < 12 {
        assert order[i] == ChargeBlock(Pos)[i];
      } else {
        assert order[i] == ChargeBlock(Neg)[i - 12];
      }
    }
  }

  /** The 24 booked histograms have 24 distinct names. */
  lemma BookedNamesDistinct(i: int, j: int)
    requires 0 <= i < 24 && 0 <= j < 24 && i != j
    ensures |BookingOrder()| == 24
    ensures HistName(BookingOrder()[i]) != HistName(BookingOrder()[j])
  {
    BookingOrderIsComplete();
    if HistName(BookingOrder()[i]) == HistName(BookingOrder()[j]) {
      HistNameInjective(BookingOrder()[i], BookingOrder()[j]);
    }
  }

  /** A value recorded on the shifted-pt axis: a real number, or the
      infinite value the original computes where the shifted inverse momentum
      is zero. */
  datatype PtValue = Finite(value: real) | Singular

  /** One fill of a 2D histogram. */
  datatype Point = Point(x: real, y: PtValue)

  /** A booked histogram: its x and y axes and the points filled so far. */
  datatype Hist = Hist(xAxis: Axis, yAxis: Axis, points: seq<Point>)

  /** The axis the plain histograms use on both sides, and every histogram on
      its y side: 300 bins over [0, 300] GeV/c. */
  function PtAxis(): Axis {
    Axis(300, 0.0, 300.0)
  }

  /** A freshly booked, empty histogram for key k; scan histograms take the
      configured scan axis as x axis. */
  function NewHist(k: HistKey, scanAxis: Axis): Hist {
    Hist(if k.kind == Scan then scanAxis else PtAxis(), PtAxis(), [])
  }

  /** Every key has its histogram. */
  ghost predicate Complete(h: map<HistKey, Hist>) {
    forall k: HistKey :: k in h
  }

  /** One fill: histogram `key` receives `point`. */
  datatype Entry = Entry(key: HistKey, point: Point)

  function Record(h: map<HistKey, Hist>, e: Entry): (r: map<HistKey, Hist>)
    requires Complete(h)
    ensures Complete(r)
  {
    h[e.key := h[e.key].(points := h[e.key].points + [e.point])]
  }

  /** The registry after the fills `es`, made in order. */
  function Apply(h: map<HistKey, Hist>, es: seq<Entry>): (r: map<HistKey, Hist>)
    requires Complete(h)
    ensures Complete(r)
    decreases |es|
  {
    if es == [] then h else Record(Apply(h, es[..|es| - 1]), es[|es| - 1])
  }

  /** The points that the fills `es` give histogram k, in order. */
  function Project(es: seq<Entry>, k: HistKey): seq<Point>
    decreases |es|
  {
    if es == [] then []
    else Project(es[..|es| - 1], k) + (if es[|es| - 1].key == k then [es[|es| - 1].point] else [])
  }

  lemma {:induction false} ProjectConcat(a: seq<Entry>, b: seq<Entry>, k: HistKey)
    ensures Project(a + b, k) == Project(a, k) + Project(b, k)
    decreases |b|
  {
    if b == [] {
      assert a + b == a;
    } else {
      var b' := b[..|b| - 1];
      assert (a + b)[..|a + b| - 1] == a + b';
      ProjectConcat(a, b', k);
    }
  }

  /** A sequence of fills leaves every histogram's axes alone and appends to
      each histogram exactly the points addressed to it. */
  lemma {:induction false} ApplyPoints(h: map<HistKey, Hist>, es: seq<Entry>, k: HistKey)
    requires Complete(h)
    ensures Apply(h, es)[k] == h[k].(points := h[k].points + Project(es, k))
    decreases |es|
  {
    if es != [] {
      ApplyPoints(h, es[..|es| - 1], k);
    }
  }

  /** Fills made in two runs are the fills of the concatenated run. */
  lemma {:induction false} ApplyConcat(h: map<HistKey, Hist>, a: seq<Entry>, b: seq<Entry>)
    requires Complete(h)
    ensures Apply(h, a + b) == Apply(Apply(h, a), b)
    decreases |b|
  {
    if b == [] {
      assert a + b == a;
    } else {
      var b' := b[..|b| - 1];
      assert (a + b)[..|a + b| - 1] == a + b';
      ApplyConcat(h, a, b');
    }
  }
}
