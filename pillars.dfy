/** The six pillars of a review, in the fixed order the tool walks them (wafr/template.py:18-23). */
module Pillars {

  datatype Pillar =
    | Security
    | Reliability
    | OperationalExcellence
    | Performance
    | CostOptimization
    | Sustainability

  /** The short label that numbers the questions ("SEC 1", "SEC 2", ...). */
  function Label(p: Pillar): string
  {
    match p
    case Security => "SEC"
    case Reliability => "REL"
    case OperationalExcellence => "OPS"
    case Performance => "PERF"
    case CostOptimization => "COST"
    case Sustainability => "SUS"
  }

  /** The service's pillar identifier, also the pillar's key in a template. */
  function Id(p: Pillar): string
  {
    match p
    case Security => "security"
    case Reliability => "reliability"
    case OperationalExcellence => "operationalExcellence"
    case Performance => "performance"
    case CostOptimization => "costOptimization"
    case Sustainability => "sustainability"
  }

  const Order: seq<Pillar> :=
    [Security, Reliability, OperationalExcellence, Performance, CostOptimization, Sustainability]

  function Ids(ps: seq<Pillar>): (r: seq<string>)
    ensures |r| == |ps|
    ensures forall i :: 0 <= i < |ps| ==> r[i] == Id(ps[i])
  {
    if ps == [] then [] else Ids(ps[..|ps| - 1]) + [Id(ps[|ps| - 1])]
  }

  /** The order lists every pillar exactly once, and labels and ids tell pillars apart. */
  lemma OrderEnumeratesPillars()
    ensures |Order| == 6
    ensures forall p: Pillar :: p in Order
    ensures forall i, j :: 0 <= i < j < |Order| ==> Order[i] != Order[j]
    ensures forall p: Pillar, q: Pillar :: p != q ==> Label(p) != Label(q) && Id(p) != Id(q)
  {
    forall p: Pillar ensures p in Order {
      match p
      case Security => assert Order[0] == p;
      case Reliability => assert Order[1] == p;
      case OperationalExcellence => assert Order[2] == p;
      case Performance => assert Order[3] == p;
      case CostOptimization => assert Order[4] == p;
      case Sustainability => assert Order[5] == p;
    }
  }
}
