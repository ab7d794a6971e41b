/** Pure logic of the live map page: the selected-aircraft proxy, the
    deselection reset, the turbulence style rule, the chart columns of a
    feature, the heatmap flattening and the `HH:MM` clock string.

    JavaScript values are `JsValue`s; a number that may be NaN or undefined
    is an `Option<real>` whose `None` makes every comparison false. */
module TangramMap {
  import opened Common

  // ------------------------------------------------------------ selected aircraft

  const Icao24Prop: string := "icao24"
  const PriorProp: string := "prior_icao24"

  /** The effect of one assignment through the proxy's `set` trap on its
      target: only `icao24` is written, after saving its old value. */
  function Assign(target: map<string, JsValue>, prop: string, value: JsValue): (t: map<string, JsValue>)
    ensures prop == Icao24Prop ==> Lookup(t, Icao24Prop) == value && Lookup(t, PriorProp) == Lookup(target, Icao24Prop)
    ensures prop == Icao24Prop ==> forall p :: p != Icao24Prop && p != PriorProp ==> Lookup(t, p) == Lookup(target, p)
    ensures prop != Icao24Prop ==> t == target
  {
    if prop == Icao24Prop then target[PriorProp := Lookup(target, Icao24Prop)][Icao24Prop := value] else target
  }

  /** Two selections in a row: the prior id is the first one. */
  lemma SelectTwice(target: map<string, JsValue>, a: JsValue, b: JsValue)
    ensures var t := Assign(Assign(target, Icao24Prop, a), Icao24Prop, b);
      Lookup(t, Icao24Prop) == b && Lookup(t, PriorProp) == a
  {
  }

  /** `selected`, a proxy over `{ icao24: null, prior_icao24: null }`.
      `pushes` records the `select` events pushed to the streaming channel. */
  class Selected {
    var target: map<string, JsValue>
    var pushes: seq<JsValue>

    constructor ()
      ensures target == map[Icao24Prop := Null, PriorProp := Null]
      ensures pushes == []
    {
      target := map[Icao24Prop := Null, PriorProp := Null];
      pushes := [];
    }

    /** The `get` trap: both branches read the target. */
    function Get(prop: string): (v: JsValue)
      reads this
      ensures prop in target ==> v == target[prop]
      ensures prop !in target ==> v == Undefined
    {
      Lookup(target, prop)
    }

    /** The `set` trap. The result is the trap's truthiness: `true` only
        for a non-null id; otherwise the trap returns undefined, which a
        sloppy-mode script ignores. */
    method Set(prop: string, value: JsValue) returns (accepted: bool)
      modifies this
      ensures target == Assign(old(target), prop, value)
      ensures accepted <==> prop == Icao24Prop && value != Null
      ensures pushes == if accepted then old(pushes) + [value] else old(pushes)
    {
      accepted := false;
      if prop == Icao24Prop {
        var priorValue := Lookup(target, Icao24Prop);
        target := target[PriorProp := priorValue];
        target := target[Icao24Prop := value];
        if value != Null {
          pushes := pushes + [value];
          accepted := true;
        }
      }
    }

    /** `deselect_planes`: leave the trajectory channel of the current id
        when one is open, then reset the selection to null. */
    method Deselect(trajectoryOpen: bool) returns (leave: Option<string>)
      modifies this
      ensures leave == if trajectoryOpen then Some("channel:trajectory:" + JsString(old(Get(Icao24Prop)))) else None
      ensures target == Assign(old(target), Icao24Prop, Null)
      ensures Get(Icao24Prop) == Null
      ensures Get(PriorProp) == old(Get(Icao24Prop))
      ensures pushes == old(pushes)
    {
      leave := None;
      if trajectoryOpen {
        leave := Some("channel:trajectory:" + JsString(Get(Icao24Prop)));
      }
      var _ := Set(Icao24Prop, Null);
    }
  }

  // ------------------------------------------------------------ turbulence style

  const Violet: string := "#8400ff"
  const Orange: string := "#ff9900"
  const Blue: string := "#0084ff"

  /** The `color` closure of `getTurbulence`'s style. */
  function IntensityColour(intensity: Option<real>): (c: string)
    ensures c == Violet <==> intensity.Some? && intensity.value >= 200.0
    ensures c == Orange <==> intensity.Some? && 100.0 < intensity.value < 200.0
    ensures c == Blue <==> intensity.None? || intensity.value <= 100.0
  {
    if intensity.Some? && intensity.value >= 200.0 then Violet
    else if intensity.Some? && intensity.value < 200.0 && intensity.value > 100.0 then Orange
    else Blue
  }

  /** Rank of a colour band, from calm to severe. */
  function Band(c: string): nat
  {
    if c == Violet then 2 else if c == Orange then 1 else 0
  }

  /** A stronger intensity never gets a calmer colour. */
  lemma ColourMonotone(a: real, b: real)
    requires a <= b
    ensures Band(IntensityColour(Some(a))) <= Band(IntensityColour(Some(b)))
  {
  }

  datatype Style = Style(className: string, colour: string)

  /** The style of one turbulence path: selected paths get their own class. */
  function TurbStyle(icao24: JsValue, selected: JsValue, intensity: Option<real>): (s: Style)
    ensures s.colour == IntensityColour(intensity)
    ensures s.className == (if icao24 == selected then "turb_selected turb-" else "turb_path turb-") + JsString(icao24)
  {
    var colour := IntensityColour(intensity);
    if icao24 == selected then Style("turb_selected turb-" + JsString(icao24), colour)
    else Style("turb_path turb-" + JsString(icao24), colour)
  }

  /** The class name alone tells whether the path is the selected one. */
  lemma ClassNameShowsSelection(icao24: JsValue, selected: JsValue, intensity: Option<real>)
    ensures var n := TurbStyle(icao24, selected, intensity).className;
      (|n| >= 13 && n[..13] == "turb_selected") <==> icao24 == selected
  {
    var n := TurbStyle(icao24, selected, intensity).className;
    if icao24 != selected {
      assert n[..13] != "turb_selected" by { assert n[5] == 'p'; }
    } else {
      assert n[..13] == "turb_selected";
    }
  }

  // ------------------------------------------------------------ chart columns

  /** `whenFeatureSelected`: the columns drawn for a chosen feature;
      "altitude" and anything unknown share the default. */
  function FeatureColumns(feat: string): (cols: seq<string>)
    ensures |cols| >= 2
    ensures feat == "vertical_rate" ==> "vrate_barometric" in cols && "vrate_inertial" in cols
    ensures feat != "speed" && feat != "vertical_rate" && feat != "track" ==> cols == ["altitude", "selected_altitude"]
  {
    match feat
    case "speed" => ["groundspeed", "IAS", "TAS"]
    case "vertical_rate" => ["vrate_barometric", "vrate_inertial", "vertical_rate"]
    case "track" => ["track", "heading", "roll"]
    case _ => ["altitude", "selected_altitude"]
  }

  /** The named features each get their own columns; every other input
      draws the altitude chart. */
  lemma FeatureColumnsDistinguish(a: string, b: string)
    requires FeatureColumns(a) == FeatureColumns(b)
    ensures a == b || FeatureColumns(a) == ["altitude", "selected_altitude"]
  {
  }

  // ------------------------------------------------------------ heatmap

  /** A slot of a JavaScript array: a hole, or a value. */
  datatype Slot = Hole | Val(v: JsValue)

  datatype HeatFeature = HeatFeature(coordinates: seq<seq<Slot>>, intensity: JsValue)

  function Holes(n: nat): (h: seq<Slot>)
    ensures |h| == n && forall i :: 0 <= i < n ==> h[i] == Hole
  {
    seq(n, _ => Hole)
  }

  /** `c[3] = v` on a JavaScript array: replace, or extend with holes. */
  function SetIndex3(c: seq<Slot>, v: JsValue): (r: seq<Slot>)
    ensures |r| == if |c| > 3 then |c| else 4
    ensures r[3] == Val(v)
    ensures forall i :: 0 <= i < |c| && i != 3 ==> r[i] == c[i]
    ensures forall i :: |c| <= i < 3 ==> r[i] == Hole
  {
    if |c| > 3 then c[3 := Val(v)] else c + Holes(3 - |c|) + [Val(v)]
  }

  /** The coordinates of one feature, each tagged with its intensity. */
  function Tagged(f: HeatFeature): (t: seq<seq<Slot>>)
    ensures |t| == |f.coordinates|
  {
    seq(|f.coordinates|, i requires 0 <= i < |f.coordinates| => SetIndex3(f.coordinates[i], f.intensity))
  }

  /** The list handed to the hexbin layer. */
  function Flattened(fs: seq<HeatFeature>): seq<seq<Slot>>
  {
    if fs == [] then [] else Flattened(fs[..|fs| - 1]) + Tagged(fs[|fs| - 1])
  }

  function TotalCoordinates(fs: seq<HeatFeature>): nat
  {
    if fs == [] then 0 else TotalCoordinates(fs[..|fs| - 1]) + |fs[|fs| - 1].coordinates|
  }

  /** The `forEach`/`for` loop of `getTurbulence`. */
  method Flatten(fs: seq<HeatFeature>) returns (res: seq<seq<Slot>>)
    ensures res == Flattened(fs)
  {
    res := [];
    for k := 0 to |fs|
      invariant res == Flattened(fs[..k])
    {
      var key := fs[k];
      for i := 0 to |key.coordinates|
        invariant res == Flattened(fs[..k]) + Tagged(key)[..i]
      {
        var entry := SetIndex3(key.coordinates[i], key.intensity);
        res := res + [entry];
        assert Tagged(key)[..i + 1] == Tagged(key)[..i] + [entry];
      }
      assert Tagged(key)[..|key.coordinates|] == Tagged(key);
      assert fs[..k + 1][..k] == fs[..k];
    }
    assert fs[..|fs|] == fs;
  }

  lemma {:induction false} FlattenedLength(fs: seq<HeatFeature>)
    ensures |Flattened(fs)| == TotalCoordinates(fs)
  {
    if fs != [] {
      FlattenedLength(fs[..|fs| - 1]);
    }
  }

  /** Feature-then-coordinate order: coordinate `i` of feature `k` sits after
      all coordinates of the features before it, tagged with its feature's
      intensity at index 3. */
  lemma {:induction false} FlattenedAt(fs: seq<HeatFeature>, k: nat, i: nat)
    requires k < |fs| && i < |fs[k].coordinates|
    ensures TotalCoordinates(fs[..k]) + i < |Flattened(fs)|
    ensures Flattened(fs)[TotalCoordinates(fs[..k]) + i] == SetIndex3(fs[k].coordinates[i], fs[k].intensity)
    ensures Flattened(fs)[TotalCoordinates(fs[..k]) + i][3] == Val(fs[k].intensity)
  {
    var init := fs[..|fs| - 1];
    FlattenedLength(init);
    if k == |fs| - 1 {
      assert fs[..k] == init;
    } else {
      assert fs[..k] == init[..k];
      FlattenedAt(init, k, i);
    }
  }

  // ------------------------------------------------------------ clock

  /** The hours and minutes `Date` reports, in local time and in UTC. */
  datatype Clock = Clock(localHours: nat, localMinutes: nat, utcHours: nat, utcMinutes: nat)

  /** A number with a leading "0" when below ten. */
  function Pad(n: nat): string
  {
    if n < 10 then "0" + NatToDecimal(n) else NatToDecimal(n)
  }

  function TimeText(hours: nat, minutes: nat): string
  {
    Pad(hours) + ":" + Pad(minutes)
  }

  /** `getTimeString`: the variables are renumbered into padded strings. */
  method GetTimeString(isLocal: bool, clock: Clock) returns (s: string)
    ensures s == if isLocal then TimeText(clock.localHours, clock.localMinutes)
                 else TimeText(clock.utcHours, clock.utcMinutes)
  {
    var hours: nat;
    var minutes: nat;
    if isLocal {
      hours := clock.localHours;
      minutes := clock.localMinutes;
    } else {
      hours := clock.utcHours;
      minutes := clock.utcMinutes;
    }
    var hoursText := JsString(Num(hours));
    var minutesText := JsString(Num(minutes));
    if hours < 10 {
      hoursText := "0" + hoursText;
    }
    if minutes < 10 {
      minutesText := "0" + minutesText;
    }
    s := hoursText + ":" + minutesText;
  }

  /** Below one hundred, padding gives two digits that read back as `n`. */
  lemma PadTwoDigits(n: nat)
    requires n < 100
    ensures |Pad(n)| == 2 && AllDigits(Pad(n)) && DecimalValue(Pad(n)) == n
  {
    DecimalRoundTrip(n);
    if n >= 10 {
      TwoDigitLength(n);
    } else {
      var p := Pad(n);
      assert p[..|p| - 1] == "0";
      assert DecimalValue("0") == 0 by { assert "0"[..0] == ""; }
    }
  }

  /** A time of day renders as five characters `HH:MM` that read back as
      the hours and the minutes. */
  lemma TimeTextShape(hours: nat, minutes: nat)
    requires hours < 24 && minutes < 60
    ensures var s := TimeText(hours, minutes);
      |s| == 5 && s[2] == ':' && AllDigits(s[..2]) && AllDigits(s[3..])
      && DecimalValue(s[..2]) == hours && DecimalValue(s[3..]) == minutes
  {
    PadTwoDigits(hours);
    PadTwoDigits(minutes);
    var s := TimeText(hours, minutes);
    assert s[..2] == Pad(hours);
    assert s[3..] == Pad(minutes);
  }
}
