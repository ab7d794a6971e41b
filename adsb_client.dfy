/** The live analytics client: it owns the resampled traffic and the
    classified dataset, and reads the two classification tunables that
    every client instance shares.

    The decoder feed, the trajectory library's resampling and the
    filter/aggregate pipeline are foreign calls: the decoder's cumulative
    table, the resampling function and the pipeline's outcome are passed in. */
module AdsbClient {
  import opened Common
  import opened TurbulenceRules

  const DefaultMinThreshold: real := 150.0
  const DefaultMultiplier: real := 1.2

  /** One row of the decoder's cumulative table. */
  datatype Report = Report(icao24: string, timestampMs: int, fields: map<string, real>)

  /** A table of reports, grouped into flights by aircraft identifier. */
  datatype Traffic = Traffic(reports: seq<Report>)

  /** What the filter/aggregate pipeline of `turbulence()` produced for the
      current traffic: an exception, or the one-minute windows of every
      flight longer than a minute. */
  datatype Aggregation = Raised | Aggregated(tracks: seq<seq<Window>>)

  /** What `resample_traffic` gave: an exception, or the traffic its final
      `eval` returns, which is none when no flight is longer than a minute. */
  datatype Resampling = ResampleRaised | Resampled(result: Option<Traffic>)

  datatype StopOutcome = Joined | NoThread

  /** `traffic_decoder`: no traffic for an empty table. */
  function TrafficOfTable(cumul: seq<Report>): (t: Option<Traffic>)
    ensures t.None? <==> cumul == []
    ensures t.Some? ==> t.value.reports == cumul
  {
    if cumul == [] then None else Some(Traffic(cumul))
  }

  /** Whether `calculate_traffic` raises: the decoder's reply has no
      `cumul` entry (`reply` is None, a KeyError), or a non-empty table's
      resampling raises. */
  predicate CalculationRaises(reply: Option<seq<Report>>, resample: Traffic -> Resampling)
  {
    reply.None? || (reply.value != [] && resample(Traffic(reply.value)).ResampleRaised?)
  }

  /** The class attributes `min_threshold` and `multiplier`: one object,
      shared by every client. */
  class Tunables {
    var minThreshold: real
    var multiplier: real

    constructor ()
      ensures minThreshold == DefaultMinThreshold && multiplier == DefaultMultiplier
    {
      minThreshold := DefaultMinThreshold;
      multiplier := DefaultMultiplier;
    }
  }

  class Client {
    /** The class-wide tunables; every client built from the same object sees
        the same values. */
    const tunables: Tunables
    var running: bool
    var traffic: Option<Traffic>
    var proData: Option<seq<Row>>
    var threadStarted: bool

    /** The classified dataset never holds an anomalous row. */
    ghost predicate Valid()
      reads this
    {
      proData.Some? ==> forall r :: r in proData.value ==> !r.anomaly
    }

    constructor (tunables: Tunables)
      ensures this.tunables == tunables
      ensures !running && traffic.None? && proData.None? && !threadStarted
      ensures Valid()
    {
      this.tunables := tunables;
      running := false;
      traffic := None;
      proData := None;
      threadStarted := false;
    }

    method SetMinThreshold(value: real)
      modifies tunables
      ensures tunables.minThreshold == value
      ensures tunables.multiplier == old(tunables.multiplier)
    {
      tunables.minThreshold := value;
    }

    method SetMultiplier(value: real)
      modifies tunables
      ensures tunables.multiplier == value
      ensures tunables.minThreshold == old(tunables.minThreshold)
    {
      tunables.multiplier := value;
    }

    method GetMinThreshold() returns (value: real)
      ensures value == tunables.minThreshold
    {
      value := tunables.minThreshold;
    }

    method GetMultiplier() returns (value: real)
      ensures value == tunables.multiplier
    {
      value := tunables.multiplier;
    }

    /** `calculate_traffic`: no traffic when the decoder table is empty,
        the resampled traffic otherwise. `resample` is `resample_traffic`.
        Nothing catches an exception here: a reply without a `cumul` entry,
        or a resampling that raises, leaves the traffic as it was and is
        reported as `raised`. */
    method CalculateTraffic(reply: Option<seq<Report>>, resample: Traffic -> Resampling) returns (raised: bool)
      modifies this`traffic
      ensures raised <==> CalculationRaises(reply, resample)
      ensures raised ==> traffic == old(traffic)
      ensures !raised ==> traffic == (if reply.value == [] then None else resample(Traffic(reply.value)).result)
    {
      if reply.None? {
        return true;
      }
      var decoded := TrafficOfTable(reply.value);
      if decoded.None? {
        traffic := None;
        return false;
      }
      var resampled := resample(decoded.value);
      if resampled.ResampleRaised? {
        return true;
      }
      traffic := resampled.result;
      raised := false;
    }

    /** `turbulence`: classify the current traffic with the tunables' current
        values. No traffic clears the dataset; a pipeline exception is logged
        and leaves the previous dataset in place. */
    method Turbulence(pipeline: Aggregation, stdev: seq<real> -> real)
      requires Valid()
      modifies this`proData
      ensures Valid()
      ensures traffic.None? ==> proData.None?
      ensures traffic.Some? && pipeline.Raised? ==> proData == old(proData)
      ensures traffic.Some? && pipeline.Aggregated? ==>
        proData == Some(ProcessedData(pipeline.tracks, tunables.minThreshold, tunables.multiplier, stdev))
      ensures traffic.Some? && pipeline.Aggregated? ==>
        forall r :: r in proData.value ==> r.threshold >= tunables.minThreshold
    {
      if traffic.Some? {
        match pipeline
        case Raised =>
        case Aggregated(tracks) =>
          proData := Some(ProcessedData(tracks, tunables.minThreshold, tunables.multiplier, stdev));
      } else {
        proData := None;
      }
    }

    /** One pass of the body of `calculate_live_turbulence` (the loop itself,
        its thread and its one-second sleep are not modelled). When
        `calculate_traffic` raises, the exception leaves the loop and ends
        the live thread: `turbulence` does not run, nothing changes, and
        `running` stays set. */
    method LiveCycle(reply: Option<seq<Report>>, resample: Traffic -> Resampling, pipeline: Aggregation, stdev: seq<real> -> real)
      returns (raised: bool)
      requires Valid()
      modifies this`traffic, this`proData
      ensures Valid()
      ensures raised <==> CalculationRaises(reply, resample)
      ensures raised ==> traffic == old(traffic) && proData == old(proData) && running == old(running)
      ensures !raised && reply.value == [] ==> traffic.None? && proData.None?
      ensures !raised && reply.value != [] ==> traffic == resample(Traffic(reply.value)).result
      ensures !raised && reply.value != [] && resample(Traffic(reply.value)).result.None? ==> proData.None?
      ensures !raised && reply.value != [] && resample(Traffic(reply.value)).result.Some? && pipeline.Raised? ==>
        proData == old(proData)
      ensures !raised && reply.value != [] && resample(Traffic(reply.value)).result.Some? && pipeline.Aggregated? ==>
        proData == Some(ProcessedData(pipeline.tracks, tunables.minThreshold, tunables.multiplier, stdev))
    {
      raised := CalculateTraffic(reply, resample);
      if raised {
        return;
      }
      Turbulence(pipeline, stdev);
    }

    /** `start_live`: set the flag and start the worker thread. */
    method StartLive()
      modifies this`running, this`threadStarted
      ensures running && threadStarted
    {
      running := true;
      threadStarted := true;
    }

    /** `stop`: clear the flag, then join the worker; joining fails when
        `start_live` never created one. */
    method Stop() returns (outcome: StopOutcome)
      modifies this`running
      ensures !running
      ensures outcome == (if threadStarted then Joined else NoThread)
    {
      running := false;
      outcome := if threadStarted then Joined else NoThread;
    }

    method Clear()
      modifies this`traffic, this`proData
      ensures traffic.None? && proData.None?
      ensures Valid()
    {
      traffic := None;
      proData := None;
    }
  }

  /** The tunables are class attributes: a floor set through one client is
      the floor read through every other. */
  method FloorSharedByClients(a: Client, b: Client, value: real) returns (seen: real)
    requires a.tunables == b.tunables
    modifies a.tunables
    ensures seen == value
  {
    a.SetMinThreshold(value);
    seen := b.GetMinThreshold();
  }

  /** Likewise for the multiplier. */
  method MultiplierSharedByClients(a: Client, b: Client, value: real) returns (seen: real)
    requires a.tunables == b.tunables
    modifies a.tunables
    ensures seen == value
  {
    a.SetMultiplier(value);
    seen := b.GetMultiplier();
  }
}
