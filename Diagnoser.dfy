/** The threshold diagnoser `diagnose_problem`: an ordered rule chain whose first
    satisfied rule gives the label. */
module Diagnoser {
  import opened Catalog

  function Diagnose(rpm: real, oilPress: real, fuelPress: real, coolPress: real, oilTemp: real, coolTemp: real): Label {
    if coolTemp > 90.0 then Name("Overheating")
    else if oilPress < 2.5 then Name("Low Oil Pressure")
    else if fuelPress < 10.0 then Name("Low Fuel Pressure")
    else Code(1)
  }

  /** Each label comes out exactly when its rule is the first one that holds. */
  lemma FirstRuleWins(rpm: real, oilPress: real, fuelPress: real, coolPress: real, oilTemp: real, coolTemp: real)
    ensures var l := Diagnose(rpm, oilPress, fuelPress, coolPress, oilTemp, coolTemp);
      && (l == Name("Overheating") <==> coolTemp > 90.0)
      && (l == Name("Low Oil Pressure") <==> coolTemp <= 90.0 && oilPress < 2.5)
      && (l == Name("Low Fuel Pressure") <==> coolTemp <= 90.0 && oilPress >= 2.5 && fuelPress < 10.0)
      && (l == Code(1) <==> coolTemp <= 90.0 && oilPress >= 2.5 && fuelPress >= 10.0)
  {
    assert |"Overheating"| != |"Low Oil Pressure"| && |"Overheating"| != |"Low Fuel Pressure"|;
    assert |"Low Oil Pressure"| != |"Low Fuel Pressure"|;
  }

  /** Every label the diagnoser gives has its own catalog entry: the lookup never falls
      back on this path. */
  lemma DiagnosisInCatalog(rpm: real, oilPress: real, fuelPress: real, coolPress: real, oilTemp: real, coolTemp: real)
    ensures var l := Diagnose(rpm, oilPress, fuelPress, coolPress, oilTemp, coolTemp);
      l in Responses && l != Code(0) && Lookup(l) != PotentialIssue
  {
    LookupKnown();
  }

  /** The engine speed, the coolant pressure and the oil temperature never affect the label. */
  lemma IgnoresUnusedReadings(rpm: real, oilPress: real, fuelPress: real, coolPress: real, oilTemp: real, coolTemp: real,
                              rpm': real, coolPress': real, oilTemp': real)
    ensures Diagnose(rpm, oilPress, fuelPress, coolPress, oilTemp, coolTemp)
         == Diagnose(rpm', oilPress, fuelPress, coolPress', oilTemp', coolTemp)
  {
  }
}
