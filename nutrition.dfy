/**
 The baseline half of the nutrition engine: today's consumption totals, the
 standard nutrient bounds for a user, basal metabolic rate (Mifflin–St Jeor)
 and total daily energy expenditure. Decimal constants are exact reals.
 */
module Nutrition {
  import opened Wrappers
  import opened Numeric
  import opened Text

  // ---------------------------------------------------------------------------
  // Data model
  // ---------------------------------------------------------------------------

  /** One logged food entry; a nutrient column left empty is None. */
  datatype FoodRecord = FoodRecord(
    calorias: Option<real>,
    carbohidratos: Option<real>,
    proteinas: Option<real>,
    grasas: Option<real>,
    azucares: Option<real>,
    sal: Option<real>)

  /** The six daily totals. */
  datatype Nutrients = Nutrients(
    calorias: real,
    carbohidratos: real,
    proteinas: real,
    grasas: real,
    azucares: real,
    sal: real)

  /** The profile fields the engine reads. An empty disease list stands for both `None` and `[]`. */
  datatype User = User(
    gender: string,
    age: Option<int>,
    weightKg: Option<real>,
    heightCm: Option<real>,
    activityLevel: Option<string>,
    diseases: seq<string>)

  /** Why an evaluation raises: no weight for the protein bounds, or no TDEE for the calorie deficit. */
  datatype Error = MissingWeight | MissingTdee

  /** The `"tdee"` entry of a recommendation dict: no such key, the key bound to None, or a number. */
  datatype TdeeSlot = NoTdeeKey | NullTdee | TdeeValue(kcal: int)

  /** A recommendation dict: its numeric bounds, and its `"tdee"` entry kept apart. */
  datatype Recommendations = Recommendations(bounds: map<string, real>, tdee: TdeeSlot)

  const CaloriasMin := "calorias_min"
  const CaloriasMax := "calorias_max"
  const CarbohidratosMin := "carbohidratos_min"
  const CarbohidratosMax := "carbohidratos_max"
  const ProteinasMin := "proteinas_min"
  const ProteinasMax := "proteinas_max"
  const GrasasMax := "grasas_max"
  const AzucaresMax := "azucares_max"
  const SalMax := "sal_max"

  /** Every key the baseline calculator produces. */
  const BaselineKeys: set<string> :=
    {CaloriasMin, CaloriasMax, CarbohidratosMin, CarbohidratosMax,
     ProteinasMin, ProteinasMax, GrasasMax, AzucaresMax, SalMax}

  // ---------------------------------------------------------------------------
  // Daily totals
  // ---------------------------------------------------------------------------

  const NoConsumption := Nutrients(0.0, 0.0, 0.0, 0.0, 0.0, 0.0)

  /** `v or 0`: a missing value counts as zero. */
  function OrZero(v: Option<real>): real
  {
    if v.Some? then v.value else 0.0
  }

  function Plus(a: Nutrients, b: Nutrients): Nutrients
  {
    Nutrients(a.calorias + b.calorias, a.carbohidratos + b.carbohidratos,
              a.proteinas + b.proteinas, a.grasas + b.grasas,
              a.azucares + b.azucares, a.sal + b.sal)
  }

  /** What one record adds to the totals. */
  function Contribution(r: FoodRecord): Nutrients
  {
    Nutrients(OrZero(r.calorias), OrZero(r.carbohidratos), OrZero(r.proteinas),
              OrZero(r.grasas), OrZero(r.azucares), OrZero(r.sal))
  }

  /** The totals of a sequence of records, summed front to back. */
  function Total(records: seq<FoodRecord>): Nutrients
    decreases |records|
  {
    if records == [] then NoConsumption
    else Plus(Total(records[..|records| - 1]), Contribution(records[|records| - 1]))
  }

  /** The summation loop: every total starts at 0 and each record adds its own fields, None as 0. */
  method DailyConsumption(records: seq<FoodRecord>) returns (totals: Nutrients)
    ensures totals == Total(records)
  {
    var calorias, carbohidratos, proteinas, grasas, azucares, sal := 0.0, 0.0, 0.0, 0.0, 0.0, 0.0;
    for i := 0 to |records|
      invariant Nutrients(calorias, carbohidratos, proteinas, grasas, azucares, sal) == Total(records[..i])
    {
      var r := records[i];
      calorias := calorias + OrZero(r.calorias);
      carbohidratos := carbohidratos + OrZero(r.carbohidratos);
      proteinas := proteinas + OrZero(r.proteinas);
      grasas := grasas + OrZero(r.grasas);
      azucares := azucares + OrZero(r.azucares);
      sal := sal + OrZero(r.sal);
      assert records[..i + 1][..i] == records[..i];
    }
    assert records[..|records|] == records;
    totals := Nutrients(calorias, carbohidratos, proteinas, grasas, azucares, sal);
  }

  /** Totals of a concatenation are the sum of the totals of the parts. */
  lemma {:induction false} TotalAppend(a: seq<FoodRecord>, b: seq<FoodRecord>)
    ensures Total(a + b) == Plus(Total(a), Total(b))
    decreases |b|
  {
    if b == [] {
      assert a + b == a;
    } else {
      var b', x := b[..|b| - 1], b[|b| - 1];
      assert (a + b)[..|a + b| - 1] == a + b';
      assert (a + b)[|a + b| - 1] == x;
      TotalAppend(a, b');
      PlusAssociative(Total(a), Total(b'), Contribution(x));
    }
  }

  lemma PlusAssociative(x: Nutrients, y: Nutrients, z: Nutrients)
    ensures Plus(Plus(x, y), z) == Plus(x, Plus(y, z))
  {
  }

  /** The totals do not depend on the order of the records. */
  lemma {:induction false} TotalPermutation(a: seq<FoodRecord>, b: seq<FoodRecord>)
    requires multiset(a) == multiset(b)
    ensures Total(a) == Total(b)
    decreases |a|
  {
    if a != [] {
      var x := a[|a| - 1];
      var a' := a[..|a| - 1];
      assert a == a' + [x];
      assert x in multiset(b);
      var i :| 0 <= i < |b| && b[i] == x;
      var p, q := b[..i], b[i + 1..];
      assert b == p + [x] + q;
      MultisetRemove(a', p, x, q);
      TotalPermutation(a', p + q);
      TotalAppend(a', [x]);
      TotalSingleton(x);
      TotalMoveLast(p, x, q);
    }
  }

  /** Removing one occurrence of `x` from both sides keeps two sequences permutations of each other. */
  lemma MultisetRemove<T>(a: seq<T>, p: seq<T>, x: T, q: seq<T>)
    requires multiset(a + [x]) == multiset(p + [x] + q)
    ensures multiset(a) == multiset(p + q)
  {
    calc {
      multiset(a) + multiset{x};
      multiset(a + [x]);
      multiset(p + [x] + q);
      multiset(p) + multiset{x} + multiset(q);
      multiset(p + q) + multiset{x};
    }
    assert multiset(a) == multiset(a) + multiset{x} - multiset{x};
    assert multiset(p + q) == multiset(p + q) + multiset{x} - multiset{x};
  }

  lemma TotalMoveLast(p: seq<FoodRecord>, x: FoodRecord, q: seq<FoodRecord>)
    ensures Total(p + [x] + q) == Plus(Total(p + q), Contribution(x))
  {
    var tp, tq, cx := Total(p), Total(q), Contribution(x);
    TotalSingleton(x);
    TotalAppend(p + [x], q);
    TotalAppend(p, [x]);
    assert Total(p + [x] + q) == Plus(Plus(tp, cx), tq);
    PlusSwap(tp, cx, tq);
    TotalAppend(p, q);
  }

  /** The last two summands of a sum can be exchanged. */
  lemma PlusSwap(a: Nutrients, b: Nutrients, c: Nutrients)
    ensures Plus(Plus(a, b), c) == Plus(Plus(a, c), b)
  {
  }

  lemma TotalSingleton(x: FoodRecord)
    ensures Total([x]) == Contribution(x)
  {
    assert [x][..0] == [];
  }

  /** Records with no negative value give totals with no negative value. */
  lemma {:induction false} TotalNonNegative(records: seq<FoodRecord>)
    requires forall i :: 0 <= i < |records| ==> NonNegative(Contribution(records[i]))
    ensures NonNegative(Total(records))
    decreases |records|
  {
    if records != [] {
      TotalNonNegative(records[..|records| - 1]);
    }
  }

  predicate NonNegative(n: Nutrients)
  {
    n.calorias >= 0.0 && n.carbohidratos >= 0.0 && n.proteinas >= 0.0 &&
    n.grasas >= 0.0 && n.azucares >= 0.0 && n.sal >= 0.0
  }

  /** Meals that record only calories add up to their calories and nothing else (300 + 450 kcal give 750 kcal). */
  lemma TotalCaloriesOnly(x: real, y: real)
    ensures Total([CaloriesOnly(x), CaloriesOnly(y)]) == Nutrients(x + y, 0.0, 0.0, 0.0, 0.0, 0.0)
  {
    var s := [CaloriesOnly(x), CaloriesOnly(y)];
    assert s[..1][..0] == [];
    assert s[..1] == [CaloriesOnly(x)];
    assert Total(s[..1]) == Nutrients(x, 0.0, 0.0, 0.0, 0.0, 0.0);
    assert s[1] == CaloriesOnly(y);
  }

  function CaloriesOnly(kcal: real): FoodRecord
  {
    FoodRecord(Some(kcal), None, None, None, None, None)
  }

  // ---------------------------------------------------------------------------
  // Baseline bounds
  // ---------------------------------------------------------------------------

  /** The sex test used throughout: `gender.lower() == "masculino"`. */
  predicate IsMale(u: User)
  {
    Lower(u.gender) == "masculino"
  }

  /** `recomendaciones_estandar`: the standard bounds; raises without a weight. */
  function StandardRecommendations(u: User): (r: Result<map<string, real>, Error>)
    ensures r.Err? <==> u.weightKg.None?
    ensures r.Err? ==> r.error == MissingWeight
    ensures r.Ok? ==> r.value.Keys == BaselineKeys
  {
    if u.weightKg.None? then Err(MissingWeight)
    else
      var w := u.weightKg.value;
      var calorias := if IsMale(u) then (2000.0, 2600.0) else (1600.0, 2000.0);
      Ok(map[
        CaloriasMin := calorias.0,
        CaloriasMax := calorias.1,
        CarbohidratosMin := 130.0,
        CarbohidratosMax := 300.0,
        ProteinasMin := RoundHalfEven(0.8 * w) as real,
        ProteinasMax := RoundHalfEven(1.2 * w) as real,
        GrasasMax := 70.0,
        AzucaresMax := 25.0,
        SalMax := 5.0])
  }

  /** The calorie range is (2000, 2600) for "masculino" in any letter case and (1600, 2000) for every other value. */
  lemma StandardCalorieRange(u: User)
    requires u.weightKg.Some?
    ensures var b := StandardRecommendations(u).value;
      (IsMale(u) <==> b[CaloriasMin] == 2000.0) &&
      (IsMale(u) <==> b[CaloriasMax] == 2600.0) &&
      (!IsMale(u) <==> b[CaloriasMin] == 1600.0) &&
      (!IsMale(u) <==> b[CaloriasMax] == 2000.0)
  {
  }

  /** Whatever the user, carbohydrates are 130–300 g, fat at most 70 g, sugar 25 g, salt 5 g. */
  lemma StandardFixedBounds(u: User)
    requires u.weightKg.Some?
    ensures var b := StandardRecommendations(u).value;
      b[CarbohidratosMin] == 130.0 && b[CarbohidratosMax] == 300.0 &&
      b[GrasasMax] == 70.0 && b[AzucaresMax] == 25.0 && b[SalMax] == 5.0
  {
  }

  /** Protein bounds are 0.8 and 1.2 g per kg, each rounded, and stay ordered for any non-negative weight. */
  lemma StandardProteinBounds(u: User)
    requires u.weightKg.Some? && u.weightKg.value >= 0.0
    ensures var b := StandardRecommendations(u).value; var w := u.weightKg.value;
      0.0 <= b[ProteinasMin] <= b[ProteinasMax] &&
      0.8 * w - 0.5 <= b[ProteinasMin] <= 0.8 * w + 0.5 &&
      1.2 * w - 0.5 <= b[ProteinasMax] <= 1.2 * w + 0.5
  {
    var w := u.weightKg.value;
    RoundHalfEvenMonotone(0.8 * w, 1.2 * w);
    RoundHalfEvenMonotone(0.0, 0.8 * w);
    RoundHalfEvenOfInt(0);
  }

  /** For a weight of at least 1 kg every baseline bound is positive and every min is below its max. */
  lemma StandardBoundsPositiveAndOrdered(u: User)
    requires u.weightKg.Some? && u.weightKg.value >= 1.0
    ensures var b := StandardRecommendations(u).value;
      (forall k :: k in b ==> b[k] > 0.0) &&
      b[CaloriasMin] <= b[CaloriasMax] && b[CarbohidratosMin] <= b[CarbohidratosMax] &&
      b[ProteinasMin] <= b[ProteinasMax]
  {
    StandardProteinBounds(u);
    var w := u.weightKg.value;
    RoundHalfEvenMonotone(0.8, 0.8 * w);
    assert RoundHalfEven(0.8) == 1;
  }

  // ---------------------------------------------------------------------------
  // Energy needs
  // ---------------------------------------------------------------------------

  /** Python truthiness of a number field: present and not zero. */
  predicate Truthy(v: Option<real>)
  {
    v.Some? && v.value != 0.0
  }

  predicate HasBodyData(u: User)
  {
    Truthy(u.weightKg) && Truthy(u.heightCm) && u.age.Some? && u.age.value != 0
  }

  /** `calcular_tmb`: Mifflin–St Jeor, or None when weight, height or age is missing or zero. */
  function BasalMetabolicRate(u: User): (r: Option<real>)
    ensures r.None? <==> !HasBodyData(u)
  {
    if !HasBodyData(u) then None
    else
      var w, h, a := u.weightKg.value, u.heightCm.value, u.age.value as real;
      if IsMale(u) then Some(10.0 * w + 6.25 * h - 5.0 * a + 5.0)
      else Some(10.0 * w + 6.25 * h - 5.0 * a - 161.0)
  }

  /**
   Every male spelling gets the +5 formula and every other gender the −161 one, so two users with the same
   body data differ by exactly 166 kcal.
   */
  lemma BasalMetabolicRateGenderGap(m: User, f: User)
    requires HasBodyData(m) && IsMale(m) && HasBodyData(f) && !IsMale(f)
    requires m.weightKg == f.weightKg && m.heightCm == f.heightCm && m.age == f.age
    ensures BasalMetabolicRate(m).value ==
      10.0 * m.weightKg.value + 6.25 * m.heightCm.value - 5.0 * m.age.value as real + 5.0
    ensures BasalMetabolicRate(f).value ==
      10.0 * f.weightKg.value + 6.25 * f.heightCm.value - 5.0 * f.age.value as real - 161.0
    ensures BasalMetabolicRate(m).value - BasalMetabolicRate(f).value == 166.0
  {
  }

  /** Changing a user's body data moves the rate by 10 kcal per kilogram, 6.25 per centimetre and −5 per year. */
  lemma BasalMetabolicRateSlopes(u: User, w: real, h: real, a: int)
    requires HasBodyData(u) && w != 0.0 && h != 0.0 && a != 0
    ensures var v := u.(weightKg := Some(w), heightCm := Some(h), age := Some(a));
      BasalMetabolicRate(v).value - BasalMetabolicRate(u).value ==
        10.0 * (w - u.weightKg.value) + 6.25 * (h - u.heightCm.value) - 5.0 * (a - u.age.value) as real
  {
  }

  /** Male, 70 kg, 175 cm, 30 years: 1648.75 kcal; the same data for a woman: 1482.75 kcal. */
  lemma BasalMetabolicRateExample()
    ensures BasalMetabolicRate(User("Masculino", Some(30), Some(70.0), Some(175.0), None, [])) == Some(1648.75)
    ensures BasalMetabolicRate(User("femenino", Some(30), Some(70.0), Some(175.0), None, [])) == Some(1482.75)
  {
  }

  /** The activity-level table; any other label counts as moderate. */
  const ActivityFactors: map<string, real> :=
    map["sedentario" := 1.2, "ligero" := 1.375, "moderado" := 1.55, "activo" := 1.725, "muy_activo" := 1.9]

  const DefaultActivityFactor: real := 1.55

  /** The label looked up: the lower-cased level, "moderado" when the profile has none. */
  function ActivityLabel(u: User): string
  {
    Lower(if u.activityLevel.Some? then u.activityLevel.value else "moderado")
  }

  /** `factor_actividad`. */
  function ActivityFactor(u: User): (r: real)
    ensures ActivityLabel(u) in ActivityFactors ==> r == ActivityFactors[ActivityLabel(u)]
    ensures ActivityLabel(u) !in ActivityFactors ==> r == 1.55
    ensures 1.2 <= r <= 1.9
  {
    var level := ActivityLabel(u);
    if level in ActivityFactors then ActivityFactors[level] else DefaultActivityFactor
  }

  /** `calcular_tdee`: BMR times the activity factor, rounded; None when BMR is None or 0. */
  function TotalDailyEnergyExpenditure(u: User): (r: Option<int>)
    ensures r.None? <==> (BasalMetabolicRate(u).None? || BasalMetabolicRate(u) == Some(0.0))
    ensures r.Some? ==>
      var x := BasalMetabolicRate(u).value * ActivityFactor(u);
      && x - 0.5 <= r.value as real <= x + 0.5
      && ((r.value as real == x - 0.5 || r.value as real == x + 0.5) ==> r.value % 2 == 0)
  {
    var bmr := BasalMetabolicRate(u);
    if bmr.None? || bmr.value == 0.0 then None
    else Some(RoundHalfEven(bmr.value * ActivityFactor(u)))
  }

  /** Male, 70 kg, 175 cm, 30 years, moderately active: round(1648.75 × 1.55) = round(2555.5625) = 2556. */
  lemma TotalDailyEnergyExpenditureExample()
    ensures TotalDailyEnergyExpenditure(User("masculino", Some(30), Some(70.0), Some(175.0), Some("Moderado"), [])) == Some(2556)
  {
    var u := User("masculino", Some(30), Some(70.0), Some(175.0), Some("Moderado"), []);
    assert ActivityLabel(u) == "moderado";
    assert BasalMetabolicRate(u) == Some(1648.75);
    RoundHalfEvenUnique(2555.5625, 2556);
  }
}
