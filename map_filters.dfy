/** The time-slider filters of the turbulence page: which turbulence
    reports, AIREPs, SIGMETs and CAT areas stay on the map at slider time
    `t` (seconds).

    A property that is missing, or a date `Date.parse` cannot read, is
    `None`; every comparison with it is false, as with NaN. A parsed date is
    kept in milliseconds and divided by 1000 before the comparison. A
    report's time may also be JSON `null`, which `<=` converts to 0. */
module MapFilters {
  import opened Common

  /** A report's `time` property: missing (undefined), JSON `null`, or a number of seconds. */
  datatype TurbTime = Missing | NullTime | At(seconds: real)

  datatype TurbFeature = TurbFeature(time: TurbTime)
  datatype AirepFeature = AirepFeature(reportedTime: Option<int>, expire: Option<int>)
  datatype SigmetFeature = SigmetFeature(validTimeFrom: Option<int>, validTimeTo: Option<int>)
  datatype CatFeature = CatFeature(intensityValue: JsValue, startValidity: Option<int>, endValidity: Option<int>)

  /** `Date.parse(x) / 1000`. */
  function Seconds(ms: Option<int>): (s: Option<real>)
    ensures s.Some? <==> ms.Some?
    ensures s.Some? ==> s.value * 1000.0 == ms.value as real
  {
    if ms.Some? then Some(ms.value as real / 1000.0) else None
  }

  /** `end >= t && start <= t`, both ends inclusive. */
  predicate Within(start: Option<int>, end: Option<int>, t: real)
  {
    var s := Seconds(start);
    var e := Seconds(end);
    e.Some? && s.Some? && e.value >= t && s.value <= t
  }

  /** `v == n` for a number `n`: a number, a string spelling `n`, or a
      boolean whose numeric value is `n`. */
  predicate LooseEqualsInt(v: JsValue, n: int)
  {
    match v
    case Num(m) => m == n
    case Str(s) => s == IntToDecimal(n)
    case Bool(b) => n == (if b then 1 else 0)
    case _ => false
  }

  /** The number `<=` compares: NaN (None) for undefined, 0 for null. */
  function TimeNumber(v: TurbTime): (n: Option<real>)
    ensures n.None? <==> v.Missing?
    ensures v.NullTime? ==> n == Some(0.0)
    ensures v.At? ==> n == Some(v.seconds)
  {
    match v
    case Missing => None
    case NullTime => Some(0.0)
    case At(s) => Some(s)
  }

  predicate KeepTurb(f: TurbFeature, t: real)
  {
    var n := TimeNumber(f.time);
    n.Some? && n.value <= t
  }

  predicate KeepAirep(f: AirepFeature, t: real)
  {
    Within(f.reportedTime, f.expire, t)
  }

  predicate KeepSigmet(f: SigmetFeature, t: real)
  {
    Within(f.validTimeFrom, f.validTimeTo, t)
  }

  predicate KeepSevereCat(f: CatFeature, t: real)
  {
    LooseEqualsInt(f.intensityValue, 2) && Within(f.startValidity, f.endValidity, t)
  }

  predicate KeepModerateCat(f: CatFeature, t: real)
  {
    LooseEqualsInt(f.intensityValue, 1) && Within(f.startValidity, f.endValidity, t)
  }

  /** The `filter` option of `L.geoJson`: the kept features, in order. */
  function Select<T(!new)>(xs: seq<T>, keep: T -> bool): (ys: seq<T>)
    ensures |ys| <= |xs|
    ensures forall y :: y in ys <==> y in xs && keep(y)
  {
    if xs == [] then [] else (if keep(xs[0]) then [xs[0]] else []) + Select(xs[1..], keep)
  }

  function FilterTurb(fs: seq<TurbFeature>, t: real): (kept: seq<TurbFeature>)
    ensures forall f :: f in kept <==> f in fs && ((f.time.At? && f.time.seconds <= t) || (f.time.NullTime? && t >= 0.0))
  {
    Select(fs, f => KeepTurb(f, t))
  }

  function FilterAirep(fs: seq<AirepFeature>, t: real): (kept: seq<AirepFeature>)
    ensures forall f :: f in kept <==> f in fs && KeepAirep(f, t)
  {
    Select(fs, f => KeepAirep(f, t))
  }

  function FilterSigmet(fs: seq<SigmetFeature>, t: real): (kept: seq<SigmetFeature>)
    ensures forall f :: f in kept <==> f in fs && KeepSigmet(f, t)
  {
    Select(fs, f => KeepSigmet(f, t))
  }

  /** `filtercat`: the severe and the moderate layer. */
  function FilterCat(fs: seq<CatFeature>, t: real): (layers: (seq<CatFeature>, seq<CatFeature>))
    ensures forall f :: f in layers.0 <==> f in fs && KeepSevereCat(f, t)
    ensures forall f :: f in layers.1 <==> f in fs && KeepModerateCat(f, t)
  {
    (Select(fs, f => KeepSevereCat(f, t)), Select(fs, f => KeepModerateCat(f, t)))
  }

  /** Both ends of a window are inclusive: in seconds, a report is kept
      exactly from its start to its end. */
  lemma WithinBounds(start: int, end: int, t: real)
    ensures Within(Some(start), Some(end), t) <==> start as real <= t * 1000.0 <= end as real
  {
  }

  /** A report stamped exactly at the slider time is shown. */
  lemma TurbAtSliderTimeKept(t: real)
    ensures KeepTurb(TurbFeature(At(t)), t)
  {
  }

  /** A report whose time is JSON `null` counts as stamped at 0: it is
      shown at every non-negative slider time, and one with no time at none. */
  lemma NullTimeShownFromZero(t: real)
    ensures KeepTurb(TurbFeature(NullTime), t) <==> t >= 0.0
    ensures !KeepTurb(TurbFeature(Missing), t)
  {
  }

  /** A window that ends before it starts keeps its feature at no time. */
  lemma EmptyWindowKeepsNothing(start: int, end: int, t: real)
    requires end < start
    ensures !Within(Some(start), Some(end), t)
  {
  }

  /** A date that cannot be read hides the feature at every time. */
  lemma UnreadableDateKeepsNothing(start: Option<int>, end: Option<int>, t: real)
    requires start.None? || end.None?
    ensures !Within(start, end, t)
  {
  }

  /** No CAT area is in both layers; one whose intensity value equals
      neither 1 nor 2 is in no layer. */
  lemma CatLayersDisjoint(f: CatFeature, t: real)
    ensures !(KeepSevereCat(f, t) && KeepModerateCat(f, t))
    ensures !LooseEqualsInt(f.intensityValue, 1) && !LooseEqualsInt(f.intensityValue, 2) ==>
      !KeepSevereCat(f, t) && !KeepModerateCat(f, t)
  {
  }

  /** Loose equality lets a boolean `true` into the moderate layer. */
  lemma TrueIsModerate(start: int, end: int, t: real)
    requires Within(Some(start), Some(end), t)
    ensures KeepModerateCat(CatFeature(Bool(true), Some(start), Some(end)), t)
  {
  }

  /** Moving the slider forward never hides a turbulence report. */
  lemma FilterTurbMonotone(fs: seq<TurbFeature>, t: real, u: real)
    requires t <= u
    ensures forall f :: f in FilterTurb(fs, t) ==> f in FilterTurb(fs, u)
  {
  }

  /** Filtering keeps the order: the kept part of a concatenation is the
      kept part of the first piece followed by that of the second. */
  lemma {:induction false} SelectConcat<T(!new)>(xs: seq<T>, ys: seq<T>, keep: T -> bool)
    ensures Select(xs + ys, keep) == Select(xs, keep) + Select(ys, keep)
  {
    if xs == [] {
      assert xs + ys == ys;
    } else {
      assert (xs + ys)[0] == xs[0];
      assert (xs + ys)[1..] == xs[1..] + ys;
      SelectConcat(xs[1..], ys, keep);
      ConcatAssoc(if keep(xs[0]) then [xs[0]] else [], Select(xs[1..], keep), Select(ys, keep));
    }
  }
}
