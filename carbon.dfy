/** The carbon-footprint estimator: emission factors looked up in two fixed
    tables, a three-term sum, and the in-memory log of past calculations. */
module CarbonCalculator {

  /** Emission factors in kg CO2 per kg of material. */
  const MaterialFactors: map<string, real> :=
    map["plastic" := 3.4, "paper" := 1.3, "glass" := 0.85, "metal" := 5.2, "organic" := 0.2, "textile" := 8.1]

  /** Emission factors in kg CO2 per kg per km of transport. */
  const TransportFactors: map<string, real> :=
    map["air" := 0.0015, "sea" := 0.00003, "road" := 0.0001, "rail" := 0.00005]

  const DefaultMaterialFactor: real := 1.0
  const DefaultTransportFactor: real := 0.0001
  /** Average packaging factor, kg CO2 per kg of packaging. */
  const PackagingFactor: real := 1.5

  /** `materialFactors[materialType] || 1`: a missing (or zero) entry falls back to 1. */
  function MaterialFactor(materialType: string): (f: real)
    ensures 0.2 <= f <= 8.1
    ensures materialType in MaterialFactors ==> f == MaterialFactors[materialType]
    ensures materialType !in MaterialFactors ==> f == DefaultMaterialFactor
  {
    if materialType in MaterialFactors && MaterialFactors[materialType] != 0.0
    then MaterialFactors[materialType] else DefaultMaterialFactor
  }

  /** `transportFactors[transportMethod] || 0.0001`: the road factor is the fallback. */
  function TransportFactor(transportMethod: string): (f: real)
    ensures 0.00003 <= f <= 0.0015
    ensures transportMethod in TransportFactors ==> f == TransportFactors[transportMethod]
    ensures transportMethod !in TransportFactors ==> f == TransportFactors["road"]
  {
    if transportMethod in TransportFactors && TransportFactors[transportMethod] != 0.0
    then TransportFactors[transportMethod] else DefaultTransportFactor
  }

  /** The request body of a calculation. */
  datatype Shipment = Shipment(
    weight: real,
    materialType: string,
    transportDistance: real,
    transportMethod: string,
    packagingWeight: real)

  datatype Breakdown = Breakdown(manufacturing: real, transport: real, packaging: real)

  /** The result returned to the caller: `{ totalCarbon, breakdown }`. */
  datatype Estimate = Estimate(totalCarbon: real, breakdown: Breakdown)

  /** An entry of the history log: `{ date, ...result }`. */
  datatype CalculationRecord = CalculationRecord(date: int, totalCarbon: real, breakdown: Breakdown)

  /** The estimate for one shipment; its total is the sum of its three components. */
  function Calculate(s: Shipment): (e: Estimate)
    ensures e.totalCarbon == e.breakdown.manufacturing + e.breakdown.transport + e.breakdown.packaging
  {
    var manufacturing := s.weight * MaterialFactor(s.materialType);
    var transport := s.weight * s.transportDistance * TransportFactor(s.transportMethod);
    var packaging := s.packagingWeight * PackagingFactor;
    Estimate(manufacturing + transport + packaging, Breakdown(manufacturing, transport, packaging))
  }

  /** Manufacturing emissions are the weight times the material's factor,
      and the weight itself for an unknown material. */
  lemma ManufacturingComponent(s: Shipment)
    ensures Calculate(s).breakdown.manufacturing == s.weight * MaterialFactor(s.materialType)
    ensures s.materialType !in MaterialFactors ==> Calculate(s).breakdown.manufacturing == s.weight
    ensures s.materialType in MaterialFactors ==>
      Calculate(s).breakdown.manufacturing == s.weight * MaterialFactors[s.materialType]
  {
  }

  /** Transport emissions are weight times distance times the method's
      factor, with the road factor for an unknown method. */
  lemma TransportComponent(s: Shipment)
    ensures s.transportMethod in TransportFactors ==>
      Calculate(s).breakdown.transport == s.weight * s.transportDistance * TransportFactors[s.transportMethod]
    ensures s.transportMethod !in TransportFactors ==>
      Calculate(s).breakdown.transport == s.weight * s.transportDistance * 0.0001
  {
  }

  /** Packaging emissions depend on the packaging weight alone. */
  lemma PackagingIndependent(s: Shipment, t: Shipment)
    requires s.packagingWeight == t.packagingWeight
    ensures Calculate(s).breakdown.packaging == Calculate(t).breakdown.packaging == s.packagingWeight * 1.5
  {
  }

  /** The total is the sum of the components; with non-negative inputs every
      component is non-negative and bounded by the total. */
  lemma TotalBoundsComponents(s: Shipment)
    requires s.weight >= 0.0 && s.transportDistance >= 0.0 && s.packagingWeight >= 0.0
    ensures var e := Calculate(s);
      e.totalCarbon == e.breakdown.manufacturing + e.breakdown.transport + e.breakdown.packaging
      && 0.0 <= e.breakdown.manufacturing <= e.totalCarbon
      && 0.0 <= e.breakdown.transport <= e.totalCarbon
      && 0.0 <= e.breakdown.packaging <= e.totalCarbon
  {
    var wd := s.weight * s.transportDistance;
    assert wd >= 0.0;
    assert wd * TransportFactor(s.transportMethod) >= 0.0;
    assert s.weight * MaterialFactor(s.materialType) >= 0.0;
  }

  /** 10 kg of plastic over 100 km of road with 2 kg of packaging:
      34 + 0.1 + 3 = 37.1 kg CO2. */
  lemma WorkedExample()
    ensures Calculate(Shipment(10.0, "plastic", 100.0, "road", 2.0))
      == Estimate(37.1, Breakdown(34.0, 0.1, 3.0))
  {
  }

  /** The process-wide log of calculations, appended to by every calculation
      and emptied by a clear. */
  class CalculationLog {
    var history: seq<CalculationRecord>

    constructor ()
      ensures history == []
    {
      history := [];
    }

    /** Computes the estimate and appends exactly one record, stamped with
        `date`, carrying the same figures as the returned result. */
    method CalculateCarbon(s: Shipment, date: int) returns (r: Estimate)
      modifies this
      ensures r == Calculate(s)
      ensures |history| == |old(history)| + 1
      ensures history[..|old(history)|] == old(history)
      ensures history[|history| - 1] == CalculationRecord(date, r.totalCarbon, r.breakdown)
    {
      r := Calculate(s);
      history := history + [CalculationRecord(date, r.totalCarbon, r.breakdown)];
    }

    /** Returns the log; it has no frame, so the log is left as it was. */
    method GetCalculationHistory() returns (h: seq<CalculationRecord>)
      ensures h == history
    {
      h := history;
    }

    /** Empties the log and answers with an empty list. The new state does not
        depend on the old one, so clearing twice is the same as clearing once. */
    method ClearHistory() returns (h: seq<CalculationRecord>)
      modifies this
      ensures history == [] && h == []
    {
      history := [];
      h := [];
    }
  }
}
