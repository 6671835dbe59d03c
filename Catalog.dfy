/** The condition catalog: a fixed map from condition label to the problem, its likely
    causes and the manual section to read. */
module Catalog {

  /** A condition label: an integer code (1 normal, 0 unspecified issue, as the dataset
      records them) or a symbolic fault name. */
  datatype Label = Code(code: int) | Name(name: string)

  datatype Entry = Entry(problem: string, cause: string, manual: string)

  const Normal := Entry("Normal", "No issues detected.", "Section 1.1 - General Operation")
  const PotentialIssue := Entry("Potential Issue", "Possible low pressure or temperature anomaly.", "Section 2.1 - Diagnostics")
  const Overheating := Entry("Overheating", "Low coolant, radiator blockage, or thermostat failure.", "Section 3.2 - Cooling System")
  const LowOilPressure := Entry("Low Oil Pressure", "Oil pump failure, low oil level, or worn bearings.", "Section 5.1 - Lubrication System")
  const LowFuelPressure := Entry("Low Fuel Pressure", "Clogged fuel filter, failing fuel pump, or fuel line leak.", "Section 4.1 - Fuel System")

  const Responses: map<Label, Entry> := map[
    Code(1) := Normal,
    Code(0) := PotentialIssue,
    Name("Overheating") := Overheating,
    Name("Low Oil Pressure") := LowOilPressure,
    Name("Low Fuel Pressure") := LowFuelPressure
  ]

  /** `condition_responses.get(label, condition_responses[0])`: never fails; a label
      without an entry gets the entry of code 0. */
  function Lookup(l: Label): (e: Entry)
    ensures e in Responses.Values
    ensures l in Responses ==> e == Responses[l]
    ensures l !in Responses ==> e == PotentialIssue
  {
    if l in Responses then Responses[l] else Responses[Code(0)]
  }

  /** The generic "Potential Issue" entry comes back exactly for code 0 and for every
      label the catalog does not know. */
  lemma LookupFallback(l: Label)
    ensures Lookup(l) == PotentialIssue <==> l == Code(0) || l !in Responses
  {
    assert Normal.problem != PotentialIssue.problem;
    assert Overheating.problem != PotentialIssue.problem;
    assert LowOilPressure.problem != PotentialIssue.problem;
    assert LowFuelPressure.problem != PotentialIssue.problem;
  }

  /** Different entries of the catalog name different problems. */
  lemma ProblemsDistinct(l1: Label, l2: Label)
    requires l1 in Responses && l2 in Responses
    ensures Responses[l1].problem == Responses[l2].problem <==> l1 == l2
  {
    assert |Normal.problem| == 6 && |PotentialIssue.problem| == 15 && |Overheating.problem| == 11;
    assert |LowOilPressure.problem| == 16 && |LowFuelPressure.problem| == 17;
  }

  /** Each label the diagnoser or the dataset produces finds its own entry. */
  lemma LookupKnown()
    ensures Lookup(Code(1)) == Normal && Lookup(Code(0)) == PotentialIssue
    ensures Lookup(Name("Overheating")) == Overheating
    ensures Lookup(Name("Low Oil Pressure")) == LowOilPressure
    ensures Lookup(Name("Low Fuel Pressure")) == LowFuelPressure
  {
  }
}
