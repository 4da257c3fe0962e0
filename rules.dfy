/**
 The disease rule table: for each lower-case disease name, the bounds it
 overrides, in the order the table lists them. The reserved key
 `calorias_deficit` is a factor applied to TDEE rather than a bound.
 */
module DiseaseRules {
  import opened Numeric
  import opened Text
  import opened Nutrition

  const CaloricDeficit := "calorias_deficit"

  /** The overrides of one disease, as (key, value) items in table order. */
  type Rule = seq<(string, real)>

  const Rules: map<string, Rule> := map[
    "diabetes" := [(AzucaresMax, 20.0), (CarbohidratosMax, 250.0)],
    "hipertension" := [(SalMax, 3.0)],
    "obesidad" := [(CaloricDeficit, 0.90)],
    "dislipidemia" := [(GrasasMax, 60.0)]
  ]

  /** The keys a rule names. */
  function KeysOf(rule: Rule): set<string>
  {
    if rule == [] then {} else {rule[0].0} + KeysOf(rule[1..])
  }

  /** Four diseases, each named in lower-case ASCII, so a lower-cased lookup can find them; an accented name cannot. */
  lemma RulesTableNames()
    ensures Rules.Keys == {"diabetes", "hipertension", "obesidad", "dislipidemia"}
    ensures forall d :: d in Rules ==> Lower(d) == d
    ensures Lower("HiperTension") in Rules
    ensures Lower("hipertensión") !in Rules && Lower("Hipertensión") !in Rules
  {
    assert Lower("HiperTension") == "hipertension";
    assert Lower("hipertensión") == "hipertensión";
    assert Lower("Hipertensión") == "hipertensión";
  }

  /** Every override key other than the deficit factor names a bound the baseline calculator produces. */
  lemma OverrideKeysAreBaselineKeys()
    ensures forall d, k :: d in Rules && k in KeysOf(Rules[d]) && k != CaloricDeficit ==> k in BaselineKeys
  {
    RuleKeys();
  }

  /** Each direct override is stricter than the baseline bound it replaces, and the carbohydrate range stays ordered. */
  lemma OverridesTightenBaseline(u: User)
    requires u.weightKg.Some?
    ensures var b := StandardRecommendations(u).value;
      forall d, i :: d in Rules && 0 <= i < |Rules[d]| && Rules[d][i].0 != CaloricDeficit ==>
        Rules[d][i].1 < b[Rules[d][i].0]
    ensures StandardRecommendations(u).value[CarbohidratosMin] <= Rules["diabetes"][1].1
  {
    StandardFixedBounds(u);
  }

  /** The obesity rule is a 10% cut: for any positive TDEE the adjusted ceiling is below it. */
  lemma DeficitBelowTdee(tdee: int)
    requires tdee > 0
    ensures Rules["obesidad"] == [(CaloricDeficit, 0.9)]
    ensures TruncToZero(tdee as real * 0.9) < tdee
  {
  }

  /** No two diseases override the same key, and no rule names a key twice. */
  lemma RuleKeysDisjoint()
    ensures forall d1, d2 :: d1 in Rules && d2 in Rules && d1 != d2 ==> KeysOf(Rules[d1]) !! KeysOf(Rules[d2])
    ensures forall d, i, j :: d in Rules && 0 <= i < j < |Rules[d]| ==> Rules[d][i].0 != Rules[d][j].0
  {
    RuleKeys();
  }

  /** The key set of each rule. */
  lemma RuleKeys()
    ensures KeysOf(Rules["diabetes"]) == {AzucaresMax, CarbohidratosMax}
    ensures KeysOf(Rules["hipertension"]) == {SalMax}
    ensures KeysOf(Rules["obesidad"]) == {CaloricDeficit}
    ensures KeysOf(Rules["dislipidemia"]) == {GrasasMax}
  {
    var diabetes := Rules["diabetes"];
    assert diabetes[1..] == [(CarbohidratosMax, 250.0)];
    assert KeysOf(diabetes[1..]) == {CarbohidratosMax};
  }
}
