/**
 `generar_alertas_nutricionales`: baseline bounds with the TDEE attached,
 adjusted for the user's diseases, then five threshold checks in a fixed
 order, and a default message when none fires.
 */
module Alerts {
  import opened Wrappers
  import opened Numeric
  import opened Nutrition
  import opened Adjustment

  /** The six alert messages the evaluation can produce. */
  datatype Alert = BelowCalories | AboveCalories | ExcessCarbohydrates | ExcessSugar | ExcessSalt | WithinRanges

  /** The text shown for each alert: a sentence closed by a full stop. */
  function Message(a: Alert): (r: string)
    ensures |r| > 1 && r[|r| - 1] == '.'
  {
    match a
    case BelowCalories => "Calorías por debajo de lo recomendado."
    case AboveCalories => "Ha excedido sus calorías recomendadas."
    case ExcessCarbohydrates => "Exceso de carbohidratos."
    case ExcessSugar => "Azúcares por encima del límite recomendado."
    case ExcessSalt => "Ha superado la recomendación máxima de sal."
    case WithinRanges => "Su ingesta diaria está dentro de rangos adecuados."
  }

  /** No two alerts share a text: they differ in the first or the fourth character. */
  lemma MessageInjective(a: Alert, b: Alert)
    requires Message(a) == Message(b)
    ensures a == b
  {
    assert Message(a)[0] == Message(b)[0] && Message(a)[3] == Message(b)[3];
  }

  /** The texts of a list of alerts, as the source's list of strings holds them. */
  function Render(alerts: seq<Alert>): (r: seq<string>)
    ensures |r| == |alerts|
    ensures forall i :: 0 <= i < |alerts| ==> r[i] == Message(alerts[i])
  {
    seq(|alerts|, i requires 0 <= i < |alerts| => Message(alerts[i]))
  }

  /** The alerts of the five checks, in the order the checks run. */
  const CheckMessages: seq<Alert> := [BelowCalories, AboveCalories, ExcessCarbohydrates, ExcessSugar, ExcessSalt]

  /** The bounds the checks read. */
  const CheckedKeys: set<string> := {CaloriasMin, CaloriasMax, CarbohidratosMax, AzucaresMax, SalMax}

  /** The report returned to the caller. */
  datatype AlertReport = AlertReport(
    consumo: Nutrients,
    recomendaciones: Recommendations,
    tdee: Option<int>,
    alertas: seq<Alert>)

  /** Which of the five checks fire, in check order. Protein and fat are not among them. */
  function Fired(c: Nutrients, b: Bounds): (f: seq<bool>)
    requires CheckedKeys <= b.Keys
    ensures |f| == 5
  {
    [c.calorias < b[CaloriasMin],
     c.calorias > b[CaloriasMax],
     c.carbohidratos > b[CarbohidratosMax],
     c.azucares > b[AzucaresMax],
     c.sal > b[SalMax]]
  }

  /** Position of an alert in check order; the default message comes last. */
  function Rank(m: Alert): (r: nat)
    ensures r <= 5 && (r == 5 <==> m == WithinRanges)
  {
    match m
    case BelowCalories => 0
    case AboveCalories => 1
    case ExcessCarbohydrates => 2
    case ExcessSugar => 3
    case ExcessSalt => 4
    case WithinRanges => 5
  }

  lemma RankOfCheck(i: int)
    requires 0 <= i < 5
    ensures Rank(CheckMessages[i]) == i
  {
  }

  /** The alerts appear in the order their checks run, each at most once. */
  predicate InCheckOrder(r: seq<Alert>)
  {
    forall i, j :: 0 <= i < j < |r| ==> Rank(r[i]) < Rank(r[j])
  }

  /** The alert list after the first `n` checks: each check appends its alert when its flag is set. */
  function Checked(flags: seq<bool>, n: nat): seq<Alert>
    requires n <= |flags| == 5
  {
    if n == 0 then [] else Checked(flags, n - 1) + (if flags[n - 1] then [CheckMessages[n - 1]] else [])
  }

  /** After `n` checks the list holds exactly the alerts of the fired checks among the first `n`, in check order. */
  lemma {:induction false} CheckedProps(flags: seq<bool>, n: nat)
    requires n <= |flags| == 5
    ensures |Checked(flags, n)| <= n
    ensures forall k :: 0 <= k < |Checked(flags, n)| ==> Rank(Checked(flags, n)[k]) < n
    ensures InCheckOrder(Checked(flags, n))
    ensures forall a :: a in Checked(flags, n) <==> Rank(a) < n && flags[Rank(a)]
  {
    if n > 0 {
      CheckedProps(flags, n - 1);
      RankOfCheck(n - 1);
      var prev := Checked(flags, n - 1);
      if flags[n - 1] {
        var r := prev + [CheckMessages[n - 1]];
        assert forall k :: 0 <= k < |prev| ==> r[k] == prev[k];
      }
    }
  }

  /** The five checks written out one after the other. */
  lemma CheckedFive(flags: seq<bool>)
    requires |flags| == 5
    ensures Checked(flags, 5) ==
      (if flags[0] then [BelowCalories] else []) +
      (if flags[1] then [AboveCalories] else []) +
      (if flags[2] then [ExcessCarbohydrates] else []) +
      (if flags[3] then [ExcessSugar] else []) +
      (if flags[4] then [ExcessSalt] else [])
  {
    assert Checked(flags, 1) == (if flags[0] then [BelowCalories] else []);
    assert Checked(flags, 2) == Checked(flags, 1) + (if flags[1] then [AboveCalories] else []);
    assert Checked(flags, 3) == Checked(flags, 2) + (if flags[2] then [ExcessCarbohydrates] else []);
    assert Checked(flags, 4) == Checked(flags, 3) + (if flags[3] then [ExcessSugar] else []);
  }

  /**
   The alert list for the five check outcomes: the fired checks' alerts in check order,
   or the default message alone when none fired.
   */
  function AlertsOf(flags: seq<bool>): (r: seq<Alert>)
    requires |flags| == 5
    ensures 1 <= |r| <= 5
    ensures forall a :: a != WithinRanges ==> (a in r <==> flags[Rank(a)])
    ensures WithinRanges in r <==> forall i :: 0 <= i < 5 ==> !flags[i]
    ensures WithinRanges in r ==> r == [WithinRanges]
    ensures InCheckOrder(r)
  {
    CheckedProps(flags, 5);
    CheckedEmpty(flags);
    var fired := Checked(flags, 5);
    if fired == [] then [WithinRanges] else fired
  }

  /** No alert of the five checks exactly when no check fired. */
  lemma CheckedEmpty(flags: seq<bool>)
    requires |flags| == 5
    ensures Checked(flags, 5) == [] <==> forall i :: 0 <= i < 5 ==> !flags[i]
  {
    CheckedFive(flags);
    assert |Checked(flags, 5)| ==
      (if flags[0] then 1 else 0) + (if flags[1] then 1 else 0) + (if flags[2] then 1 else 0) +
      (if flags[3] then 1 else 0) + (if flags[4] then 1 else 0);
  }

  /** The alert list for a consumption checked against a set of bounds. */
  function AlertsFor(c: Nutrients, b: Bounds): seq<Alert>
    requires CheckedKeys <= b.Keys
  {
    AlertsOf(Fired(c, b))
  }

  /** The baseline dict of an evaluation: the standard bounds with the TDEE stored under `"tdee"`. */
  function BaselineWithTdee(u: User): (r: Result<Recommendations, Error>)
    ensures r.Err? <==> u.weightKg.None?
    ensures r.Err? ==> r.error == MissingWeight
    ensures r.Ok? ==> r.value.bounds == StandardRecommendations(u).value && r.value.bounds.Keys == BaselineKeys
    ensures r.Ok? ==> !r.value.tdee.NoTdeeKey?
    ensures r.Ok? ==> (r.value.tdee.TdeeValue? <==> TotalDailyEnergyExpenditure(u).Some?)
    ensures r.Ok? && r.value.tdee.TdeeValue? ==> r.value.tdee.kcal == TotalDailyEnergyExpenditure(u).value
  {
    match StandardRecommendations(u)
    case Err(e) => Err(e)
    case Ok(b) =>
      var t := TotalDailyEnergyExpenditure(u);
      Ok(Recommendations(b, if t.Some? then TdeeValue(t.value) else NullTdee))
  }

  /** The five checks of an evaluation, each appending its alert, then the default when none fired. */
  method CheckIntake(consumo: Nutrients, b: Bounds) returns (alertas: seq<Alert>)
    requires CheckedKeys <= b.Keys
    ensures alertas == AlertsFor(consumo, b)
  {
    ghost var flags := Fired(consumo, b);
    alertas := [];
    if consumo.calorias < b[CaloriasMin] {
      alertas := alertas + [BelowCalories];
    }
    assert alertas == Checked(flags, 1);
    if consumo.calorias > b[CaloriasMax] {
      alertas := alertas + [AboveCalories];
    }
    assert alertas == Checked(flags, 2);
    if consumo.carbohidratos > b[CarbohidratosMax] {
      alertas := alertas + [ExcessCarbohydrates];
    }
    assert alertas == Checked(flags, 3);
    if consumo.azucares > b[AzucaresMax] {
      alertas := alertas + [ExcessSugar];
    }
    assert alertas == Checked(flags, 4);
    if consumo.sal > b[SalMax] {
      alertas := alertas + [ExcessSalt];
    }
    assert alertas == Checked(flags, 5);
    if alertas == [] {
      alertas := alertas + [WithinRanges];
    }
  }

  /** The evaluation: baseline, TDEE, adjustment, then the checks, each appending one message. */
  method GenerateAlerts(u: User, consumo: Nutrients) returns (r: Result<AlertReport, Error>)
    ensures r.Err? <==>
      u.weightKg.None? || (TotalDailyEnergyExpenditure(u).None? && MentionsObesity(u.diseases))
    ensures r.Ok? ==>
      && BaselineWithTdee(u).Ok?
      && Adjust(u.diseases, BaselineWithTdee(u).value) == Ok(r.value.recomendaciones)
      && r.value.consumo == consumo
      && r.value.tdee == TotalDailyEnergyExpenditure(u)
      && CheckedKeys <= r.value.recomendaciones.bounds.Keys
      && r.value.alertas == AlertsFor(consumo, r.value.recomendaciones.bounds)
  {
    var base := StandardRecommendations(u);
    if base.Err? {
      return Err(base.error);
    }
    var tdee := TotalDailyEnergyExpenditure(u);
    var recBase := Recommendations(base.value, if tdee.Some? then TdeeValue(tdee.value) else NullTdee);
    var adjusted := AdjustForDiseases(u, recBase);
    AdjustFails(u.diseases, recBase);
    if adjusted.Err? {
      return Err(adjusted.error);
    }
    var rec := adjusted.value;
    AdjustKeepsKeys(u.diseases, recBase);
    var b := rec.bounds;

    var alertas := CheckIntake(consumo, b);
    assert BaselineWithTdee(u) == Ok(recBase);
    return Ok(AlertReport(consumo, rec, tdee, alertas));
  }


  // ---------------------------------------------------------------------------
  // Properties of the checks
  // ---------------------------------------------------------------------------

  /** Protein and fat are never compared against their bounds: changing them changes no alert. */
  lemma ProteinAndFatIgnored(c: Nutrients, c': Nutrients, b: Bounds)
    requires CheckedKeys <= b.Keys
    requires c.calorias == c'.calorias && c.carbohidratos == c'.carbohidratos
    requires c.azucares == c'.azucares && c.sal == c'.sal
    ensures AlertsFor(c, b) == AlertsFor(c', b)
  {
    assert Fired(c, b) == Fired(c', b);
  }

  /** A male user of 80 kg with no conditions who ate 2800 kcal, 350 g carbohydrate, 10 g sugar and
      2 g salt gets exactly the calorie-excess alert followed by the carbohydrate alert. */
  lemma ExcessScenario(u: User, c: Nutrients)
    requires u.weightKg == Some(80.0) && IsMale(u) && u.diseases == []
    requires c.calorias == 2800.0 && c.carbohidratos == 350.0 && c.azucares == 10.0 && c.sal == 2.0
    ensures BaselineWithTdee(u).Ok?
    ensures Adjust(u.diseases, BaselineWithTdee(u).value) == Ok(BaselineWithTdee(u).value)
    ensures AlertsFor(c, BaselineWithTdee(u).value.bounds) == [AboveCalories, ExcessCarbohydrates]
  {
    StandardCalorieRange(u);
    StandardFixedBounds(u);
    var b := BaselineWithTdee(u).value.bounds;
    var flags := Fired(c, b);
    assert flags == [false, true, true, false, false];
    CheckedFive(flags);
    assert Checked(flags, 5) == [AboveCalories, ExcessCarbohydrates];
  }

  /** With no conditions, an all-zero day gets the below-calories alert alone, since the calorie floor is
      at least 1600; the default message is not produced. */
  lemma ZeroConsumptionScenario(u: User)
    requires u.weightKg.Some? && u.diseases == []
    ensures BaselineWithTdee(u).Ok?
    ensures AlertsFor(NoConsumption, BaselineWithTdee(u).value.bounds) == [BelowCalories]
  {
    StandardCalorieRange(u);
    StandardFixedBounds(u);
    var b := BaselineWithTdee(u).value.bounds;
    var flags := Fired(NoConsumption, b);
    assert flags == [true, false, false, false, false];
    CheckedFive(flags);
    assert Checked(flags, 5) == [BelowCalories];
  }

  /** Within every checked bound, the default message is the whole list. */
  lemma WithinRangesScenario(u: User, c: Nutrients)
    requires u.weightKg.Some? && u.diseases == [] && !IsMale(u)
    requires c.calorias == 1800.0 && c.carbohidratos == 200.0 && c.azucares == 20.0 && c.sal == 4.0
    ensures BaselineWithTdee(u).Ok?
    ensures AlertsFor(c, BaselineWithTdee(u).value.bounds) == [WithinRanges]
  {
    StandardCalorieRange(u);
    StandardFixedBounds(u);
    var b := BaselineWithTdee(u).value.bounds;
    assert Fired(c, b) == [false, false, false, false, false];
  }

  /** The user of the next scenario: female, 70 years, 50 kg, 150 cm, sedentary, with obesity. */
  const ObeseSedentaryWoman := User("femenino", Some(70), Some(50.0), Some(150.0), Some("sedentario"), ["obesidad"])

  /** Her TDEE is round(926.5 × 1.2) = round(1111.8) = 1112. */
  lemma ObeseSedentaryWomanTdee()
    ensures TotalDailyEnergyExpenditure(ObeseSedentaryWoman) == Some(1112)
  {
    var u := ObeseSedentaryWoman;
    assert ActivityLabel(u) == "sedentario";
    assert !IsMale(u);
    assert BasalMetabolicRate(u) == Some(926.5);
    RoundHalfEvenUnique(1111.8, 1112);
  }

  /** Her ceiling becomes int(1112 × 0.90) = 1000, below the unchanged floor of 1600; the other checked bounds stay. */
  lemma ObeseSedentaryWomanBounds()
    ensures BaselineWithTdee(ObeseSedentaryWoman).Ok?
    ensures Adjust(ObeseSedentaryWoman.diseases, BaselineWithTdee(ObeseSedentaryWoman).value).Ok?
    ensures var b := Adjust(ObeseSedentaryWoman.diseases, BaselineWithTdee(ObeseSedentaryWoman).value).value.bounds;
      && CheckedKeys <= b.Keys && b[CaloriasMin] == 1600.0 && b[CaloriasMax] == 1000.0
      && b[CarbohidratosMax] == 300.0 && b[AzucaresMax] == 25.0 && b[SalMax] == 5.0
  {
    var u := ObeseSedentaryWoman;
    ObeseSedentaryWomanTdee();
    assert !IsMale(u);
    StandardCalorieRange(u);
    StandardFixedBounds(u);
    var base := StandardRecommendations(u).value;
    var rec := Recommendations(base, TdeeValue(1112));
    assert BaselineWithTdee(u) == Ok(rec);
    ApplyDiseaseOverlay(TdeeValue(1112), base, "obesidad");
    DiseaseWrites(TdeeValue(1112), "obesidad");
    assert TruncToZero(1112.0 * 0.9) == 1000;
    assert ApplyDiseases(TdeeValue(1112), base, u.diseases) == ApplyDisease(TdeeValue(1112), base, "obesidad");
    var b := base + map[CaloriasMax := 1000.0];
    assert Adjust(u.diseases, rec) == Ok(Recommendations(b, TdeeValue(1112)));
    AdjustKeepsKeys(u.diseases, rec);
  }

  /** With those bounds, 1200 kcal fires both calorie alerts at once. */
  lemma BothCalorieAlertsScenario(c: Nutrients)
    requires c.calorias == 1200.0 && c.carbohidratos == 100.0 && c.azucares == 10.0 && c.sal == 1.0
    ensures var u := ObeseSedentaryWoman;
      && TotalDailyEnergyExpenditure(u) == Some(1112)
      && BaselineWithTdee(u).Ok?
      && Adjust(u.diseases, BaselineWithTdee(u).value).Ok?
      && var b := Adjust(u.diseases, BaselineWithTdee(u).value).value.bounds;
         CheckedKeys <= b.Keys && AlertsFor(c, b) == [BelowCalories, AboveCalories]
  {
    ObeseSedentaryWomanTdee();
    ObeseSedentaryWomanBounds();
    var b := Adjust(ObeseSedentaryWoman.diseases, BaselineWithTdee(ObeseSedentaryWoman).value).value.bounds;
    var flags := Fired(c, b);
    assert flags == [true, true, false, false, false];
    CheckedFive(flags);
  }

  /** The rendered alert list: each check's text appears exactly when its check fires, and no text twice. */
  lemma RenderedAlerts(c: Nutrients, b: Bounds)
    requires CheckedKeys <= b.Keys
    ensures var r, texts := AlertsFor(c, b), Render(AlertsFor(c, b));
      && (forall a :: a != WithinRanges ==> (Message(a) in texts <==> Fired(c, b)[Rank(a)]))
      && (Message(WithinRanges) in texts <==> forall i :: 0 <= i < 5 ==> !Fired(c, b)[i])
      && (forall i, j :: 0 <= i < j < |texts| ==> texts[i] != texts[j])
  {
    var r, texts := AlertsFor(c, b), Render(AlertsFor(c, b));
    forall a ensures Message(a) in texts <==> a in r {
      if Message(a) in texts {
        var i :| 0 <= i < |texts| && texts[i] == Message(a);
        MessageInjective(r[i], a);
      }
    }
    forall i, j | 0 <= i < j < |texts| ensures texts[i] != texts[j] {
      if texts[i] == texts[j] {
        MessageInjective(r[i], r[j]);
      }
    }
  }
}
