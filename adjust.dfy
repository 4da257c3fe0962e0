/**
 `ajustar_recomendaciones_por_enfermedad`: a copy of the recommendation dict
 with every known disease's overrides written into it. The input dict is a
 value here, so it cannot be changed; the loop writes only into its copy.
 */
module Adjustment {
  import opened Wrappers
  import opened Numeric
  import opened Text
  import opened Nutrition
  import opened DiseaseRules

  type Bounds = map<string, real>

  // ---------------------------------------------------------------------------
  // Specification: the loops as folds over prefixes
  // ---------------------------------------------------------------------------

  /** One rule item. The deficit factor, when the dict has a `"tdee"` key, sets the calorie ceiling to
      `int(tdee * factor)` and fails when that TDEE is None; any other item is copied as it is. */
  function ApplyItem(tdee: TdeeSlot, acc: Bounds, k: string, v: real): Result<Bounds, Error>
  {
    if k == CaloricDeficit && !tdee.NoTdeeKey? then
      if tdee.NullTdee? then Err(MissingTdee)
      else Ok(acc[CaloriasMax := TruncToZero(tdee.kcal as real * v) as real])
    else Ok(acc[k := v])
  }

  /** The items of one rule, applied in table order. */
  function ApplyRule(tdee: TdeeSlot, acc: Bounds, rule: Rule): Result<Bounds, Error>
    decreases |rule|
  {
    if rule == [] then Ok(acc)
    else match ApplyRule(tdee, acc, rule[..|rule| - 1])
      case Err(e) => Err(e)
      case Ok(m) => ApplyItem(tdee, m, rule[|rule| - 1].0, rule[|rule| - 1].1)
  }

  /** One disease: its lower-cased name is looked up, and an unknown name changes nothing. */
  function ApplyDisease(tdee: TdeeSlot, acc: Bounds, d: string): Result<Bounds, Error>
  {
    var name := Lower(d);
    if name in Rules then ApplyRule(tdee, acc, Rules[name]) else Ok(acc)
  }

  /** Continue a fold that may already have failed. */
  function Then(r: Result<Bounds, Error>, tdee: TdeeSlot, d: string): Result<Bounds, Error>
  {
    match r
    case Err(e) => Err(e)
    case Ok(m) => ApplyDisease(tdee, m, d)
  }

  /** The diseases, applied in list order. */
  function ApplyDiseases(tdee: TdeeSlot, acc: Bounds, ds: seq<string>): Result<Bounds, Error>
    decreases |ds|
  {
    if ds == [] then Ok(acc)
    else Then(ApplyDiseases(tdee, acc, ds[..|ds| - 1]), tdee, ds[|ds| - 1])
  }

  /** The adjusted recommendations: the input itself for an empty list, otherwise the adjusted copy. */
  function Adjust(diseases: seq<string>, rec: Recommendations): Result<Recommendations, Error>
  {
    if diseases == [] then Ok(rec)
    else match ApplyDiseases(rec.tdee, rec.bounds, diseases)
      case Err(e) => Err(e)
      case Ok(m) => Ok(Recommendations(m, rec.tdee))
  }

  // ---------------------------------------------------------------------------
  // The adjuster, as the source writes it
  // ---------------------------------------------------------------------------

  /** Copy the dict, then for each disease, lower-cased and looked up, write its overrides into the copy. */
  method AdjustForDiseases(u: User, rec: Recommendations) returns (r: Result<Recommendations, Error>)
    ensures r == Adjust(u.diseases, rec)
  {
    if u.diseases == [] {
      return Ok(rec);
    }
    var recMod := rec.bounds;
    for i := 0 to |u.diseases|
      invariant ApplyDiseases(rec.tdee, rec.bounds, u.diseases[..i]) == Ok(recMod)
    {
      assert u.diseases[..i + 1][..i] == u.diseases[..i];
      var enfermedad := Lower(u.diseases[i]);
      if enfermedad !in Rules {
        continue;
      }
      var reglas := Rules[enfermedad];
      ghost var start := recMod;
      for j := 0 to |reglas|
        invariant ApplyRule(rec.tdee, start, reglas[..j]) == Ok(recMod)
      {
        assert reglas[..j + 1][..j] == reglas[..j];
        var (k, v) := reglas[j];
        if k == CaloricDeficit && !rec.tdee.NoTdeeKey? {
          if rec.tdee.NullTdee? {
            RuleErrorPersists(rec.tdee, start, reglas, j + 1);
            assert reglas[..|reglas|] == reglas;
            DiseasesErrorPersists(rec.tdee, rec.bounds, u.diseases, i + 1);
            return Err(MissingTdee);
          }
          recMod := recMod[CaloriasMax := TruncToZero(rec.tdee.kcal as real * v) as real];
          continue;
        }
        recMod := recMod[k := v];
      }
      assert reglas[..|reglas|] == reglas;
    }
    assert u.diseases[..|u.diseases|] == u.diseases;
    return Ok(Recommendations(recMod, rec.tdee));
  }

  lemma {:induction false} RuleErrorPersists(tdee: TdeeSlot, acc: Bounds, rule: Rule, n: nat)
    requires n <= |rule| && ApplyRule(tdee, acc, rule[..n]) == Err(MissingTdee)
    ensures ApplyRule(tdee, acc, rule) == Err(MissingTdee)
    decreases |rule| - n
  {
    if n < |rule| {
      assert rule[..n + 1][..n] == rule[..n];
      RuleErrorPersists(tdee, acc, rule, n + 1);
    } else {
      assert rule[..n] == rule;
    }
  }

  lemma {:induction false} DiseasesErrorPersists(tdee: TdeeSlot, acc: Bounds, ds: seq<string>, n: nat)
    requires n <= |ds| && ApplyDiseases(tdee, acc, ds[..n]) == Err(MissingTdee)
    ensures ApplyDiseases(tdee, acc, ds) == Err(MissingTdee)
    decreases |ds| - n
  {
    if n < |ds| {
      assert ds[..n + 1][..n] == ds[..n];
      DiseasesErrorPersists(tdee, acc, ds, n + 1);
    } else {
      assert ds[..n] == ds;
    }
  }

  // ---------------------------------------------------------------------------
  // What a disease writes
  // ---------------------------------------------------------------------------

  /** The entries one disease writes, found by applying it to an empty dict. */
  function Writes(tdee: TdeeSlot, d: string): Result<Bounds, Error>
  {
    ApplyDisease(tdee, map[], d)
  }

  /** Put a fold's writes on top of `acc`. */
  function Lift(acc: Bounds, r: Result<Bounds, Error>): Result<Bounds, Error>
  {
    match r
    case Err(e) => Err(e)
    case Ok(w) => Ok(acc + w)
  }

  lemma ApplyItemOverlay(tdee: TdeeSlot, acc: Bounds, w: Bounds, k: string, v: real)
    ensures ApplyItem(tdee, acc + w, k, v) == Lift(acc, ApplyItem(tdee, w, k, v))
  {
    if k == CaloricDeficit && !tdee.NoTdeeKey? {
      if tdee.TdeeValue? {
        UpdateOverlay(acc, w, CaloriasMax, TruncToZero(tdee.kcal as real * v) as real);
      }
    } else {
      UpdateOverlay(acc, w, k, v);
    }
  }

  lemma UpdateOverlay(acc: Bounds, w: Bounds, k: string, x: real)
    ensures (acc + w)[k := x] == acc + w[k := x]
  {
  }

  /** Applying a rule to any dict is laying the rule's own writes over it. */
  lemma {:induction false} ApplyRuleOverlay(tdee: TdeeSlot, acc: Bounds, rule: Rule)
    ensures ApplyRule(tdee, acc, rule) == Lift(acc, ApplyRule(tdee, map[], rule))
    decreases |rule|
  {
    if rule == [] {
      assert acc + map[] == acc;
    } else {
      var prefix, last := rule[..|rule| - 1], rule[|rule| - 1];
      ApplyRuleOverlay(tdee, acc, prefix);
      var r0 := ApplyRule(tdee, map[], prefix);
      if r0.Ok? {
        ApplyItemOverlay(tdee, acc, r0.value, last.0, last.1);
      }
    }
  }

  /** Applying a disease to any dict is laying its writes over it. */
  lemma ApplyDiseaseOverlay(tdee: TdeeSlot, acc: Bounds, d: string)
    ensures ApplyDisease(tdee, acc, d) == Lift(acc, Writes(tdee, d))
  {
    var name := Lower(d);
    if name in Rules {
      ApplyRuleOverlay(tdee, acc, Rules[name]);
    } else {
      assert acc + map[] == acc;
    }
  }

  /** The table, read as writes: what each disease puts into the dict, and the one way it can fail. */
  lemma DiseaseWrites(tdee: TdeeSlot, d: string)
    ensures Lower(d) !in Rules ==> Writes(tdee, d) == Ok(map[])
    ensures Lower(d) == "diabetes" ==> Writes(tdee, d) == Ok(map[AzucaresMax := 20.0, CarbohidratosMax := 250.0])
    ensures Lower(d) == "hipertension" ==> Writes(tdee, d) == Ok(map[SalMax := 3.0])
    ensures Lower(d) == "dislipidemia" ==> Writes(tdee, d) == Ok(map[GrasasMax := 60.0])
    ensures Lower(d) == "obesidad" && tdee.NoTdeeKey? ==> Writes(tdee, d) == Ok(map[CaloricDeficit := 0.9])
    ensures Lower(d) == "obesidad" && tdee.NullTdee? ==> Writes(tdee, d) == Err(MissingTdee)
    ensures Lower(d) == "obesidad" && tdee.TdeeValue? ==>
      Writes(tdee, d) == Ok(map[CaloriasMax := TruncToZero(tdee.kcal as real * 0.9) as real])
  {
    var name := Lower(d);
    if name == "diabetes" {
      var rule := Rules[name];
      assert rule[..1][..0] == [];
      assert rule[..1] == [(AzucaresMax, 20.0)];
      assert ApplyRule(tdee, map[], rule[..1]) == Ok(map[AzucaresMax := 20.0]);
    } else if name == "hipertension" {
      SingleItemRule(tdee, Rules[name]);
    } else if name == "dislipidemia" {
      SingleItemRule(tdee, Rules[name]);
    } else if name == "obesidad" {
      SingleItemRule(tdee, Rules[name]);
    }
  }

  lemma SingleItemRule(tdee: TdeeSlot, rule: Rule)
    requires |rule| == 1
    ensures ApplyRule(tdee, map[], rule) == ApplyItem(tdee, map[], rule[0].0, rule[0].1)
  {
    assert rule[..0] == [];
  }

  /** Two diseases either write the same entries or entries with disjoint keys. */
  lemma WritesCompatible(tdee: TdeeSlot, a: string, b: string)
    requires Writes(tdee, a).Ok? && Writes(tdee, b).Ok?
    ensures Writes(tdee, a).value.Keys !! Writes(tdee, b).value.Keys || Writes(tdee, a) == Writes(tdee, b)
  {
    DiseaseWrites(tdee, a);
    DiseaseWrites(tdee, b);
  }

  lemma OverlayCommute(acc: Bounds, w1: Bounds, w2: Bounds)
    requires w1.Keys !! w2.Keys || w1 == w2
    ensures (acc + w1) + w2 == (acc + w2) + w1
  {
  }

  // ---------------------------------------------------------------------------
  // Order independence
  // ---------------------------------------------------------------------------

  /** Any two diseases can be applied in either order. */
  lemma ThenCommutes(tdee: TdeeSlot, r: Result<Bounds, Error>, a: string, b: string)
    requires r.Err? ==> r.error == MissingTdee
    ensures Then(Then(r, tdee, a), tdee, b) == Then(Then(r, tdee, b), tdee, a)
  {
    if r.Ok? {
      var acc := r.value;
      ApplyDiseaseOverlay(tdee, acc, a);
      ApplyDiseaseOverlay(tdee, acc, b);
      DiseaseWrites(tdee, a);
      DiseaseWrites(tdee, b);
      var wa, wb := Writes(tdee, a), Writes(tdee, b);
      if wa.Ok? {
        ApplyDiseaseOverlay(tdee, acc + wa.value, b);
      }
      if wb.Ok? {
        ApplyDiseaseOverlay(tdee, acc + wb.value, a);
      }
      if wa.Ok? && wb.Ok? {
        WritesCompatible(tdee, a, b);
        OverlayCommute(acc, wa.value, wb.value);
      }
    }
  }

  lemma ApplyDiseasesSnoc(tdee: TdeeSlot, acc: Bounds, s: seq<string>, d: string)
    ensures ApplyDiseases(tdee, acc, s + [d]) == Then(ApplyDiseases(tdee, acc, s), tdee, d)
  {
    assert (s + [d])[..|s|] == s;
  }

  /** A failed adjustment always fails for want of a TDEE. */
  lemma {:induction false} ApplyDiseasesError(tdee: TdeeSlot, acc: Bounds, ds: seq<string>)
    ensures ApplyDiseases(tdee, acc, ds).Err? ==> ApplyDiseases(tdee, acc, ds).error == MissingTdee
    decreases |ds|
  {
    if ds != [] {
      var prefix, last := ds[..|ds| - 1], ds[|ds| - 1];
      ApplyDiseasesError(tdee, acc, prefix);
      var r := ApplyDiseases(tdee, acc, prefix);
      if r.Ok? {
        ApplyDiseaseOverlay(tdee, r.value, last);
        DiseaseWrites(tdee, last);
      }
    }
  }

  lemma {:induction false} MoveToEnd(tdee: TdeeSlot, acc: Bounds, p: seq<string>, x: string, q: seq<string>)
    ensures ApplyDiseases(tdee, acc, p + [x] + q) == ApplyDiseases(tdee, acc, p + q + [x])
    decreases |q|
  {
    if q == [] {
      assert p + [x] + q == p + q + [x];
    } else {
      var q', y := q[..|q| - 1], q[|q| - 1];
      assert p + [x] + q == (p + [x] + q') + [y];
      assert p + q + [x] == (p + q' + [y]) + [x];
      assert p + q' + [x] == (p + q') + [x];
      assert p + q' + [y] == (p + q') + [y];
      ApplyDiseasesSnoc(tdee, acc, p + [x] + q', y);
      MoveToEnd(tdee, acc, p, x, q');
      ApplyDiseasesSnoc(tdee, acc, p + q', x);
      ApplyDiseasesError(tdee, acc, p + q');
      ThenCommutes(tdee, ApplyDiseases(tdee, acc, p + q'), x, y);
      ApplyDiseasesSnoc(tdee, acc, p + q', y);
      ApplyDiseasesSnoc(tdee, acc, p + q' + [y], x);
    }
  }

  /** Reordering the disease list never changes the adjustment, because no two diseases touch the same key. */
  lemma {:induction false} ApplyDiseasesPermutation(tdee: TdeeSlot, acc: Bounds, ds1: seq<string>, ds2: seq<string>)
    requires multiset(ds1) == multiset(ds2)
    ensures ApplyDiseases(tdee, acc, ds1) == ApplyDiseases(tdee, acc, ds2)
    decreases |ds1|
  {
    if ds1 == [] {
      assert |ds2| == |multiset(ds2)| == 0;
    } else {
      var x, ds1' := ds1[|ds1| - 1], ds1[..|ds1| - 1];
      assert ds1 == ds1' + [x];
      assert x in multiset(ds2);
      var i :| 0 <= i < |ds2| && ds2[i] == x;
      var p, q := ds2[..i], ds2[i + 1..];
      assert ds2 == p + [x] + q;
      MultisetRemove(ds1', p, x, q);
      ApplyDiseasesPermutation(tdee, acc, ds1', p + q);
      ApplyDiseasesSnoc(tdee, acc, ds1', x);
      ApplyDiseasesSnoc(tdee, acc, p + q, x);
      MoveToEnd(tdee, acc, p, x, q);
    }
  }

  /** The adjusted recommendations do not depend on the order of the user's diseases. */
  lemma AdjustOrderIndependent(ds1: seq<string>, ds2: seq<string>, rec: Recommendations)
    requires multiset(ds1) == multiset(ds2)
    ensures Adjust(ds1, rec) == Adjust(ds2, rec)
  {
    assert ds1 == [] <==> ds2 == [] by {
      assert |ds1| == |multiset(ds1)| && |ds2| == |multiset(ds2)|;
    }
    ApplyDiseasesPermutation(rec.tdee, rec.bounds, ds1, ds2);
  }

  /** Diabetes then hypertension gives the same result as hypertension then diabetes. */
  lemma AdjustDiabetesHypertensionEitherOrder(rec: Recommendations)
    ensures Adjust(["diabetes", "hipertension"], rec) == Adjust(["hipertension", "diabetes"], rec)
  {
    assert multiset(["diabetes", "hipertension"]) == multiset(["hipertension", "diabetes"]);
    AdjustOrderIndependent(["diabetes", "hipertension"], ["hipertension", "diabetes"], rec);
  }

  // ---------------------------------------------------------------------------
  // What changes and what does not
  // ---------------------------------------------------------------------------

  /** The whole fold is its writes laid over the starting dict, so no key is ever removed. */
  lemma {:induction false} ApplyDiseasesOverlay(tdee: TdeeSlot, acc: Bounds, ds: seq<string>)
    ensures ApplyDiseases(tdee, acc, ds) == Lift(acc, ApplyDiseases(tdee, map[], ds))
    decreases |ds|
  {
    if ds == [] {
      assert acc + map[] == acc;
    } else {
      var prefix, last := ds[..|ds| - 1], ds[|ds| - 1];
      ApplyDiseasesOverlay(tdee, acc, prefix);
      var r0 := ApplyDiseases(tdee, map[], prefix);
      if r0.Ok? {
        ApplyDiseaseOverlay(tdee, acc + r0.value, last);
        ApplyDiseaseOverlay(tdee, r0.value, last);
        var w := Writes(tdee, last);
        if w.Ok? {
          assert (acc + r0.value) + w.value == acc + (r0.value + w.value);
        }
      }
    }
  }

  /** Adjustment keeps every baseline key and the `"tdee"` entry. */
  lemma AdjustKeepsKeys(ds: seq<string>, rec: Recommendations)
    requires Adjust(ds, rec).Ok?
    ensures rec.bounds.Keys <= Adjust(ds, rec).value.bounds.Keys
    ensures Adjust(ds, rec).value.tdee == rec.tdee
  {
    ApplyDiseasesOverlay(rec.tdee, rec.bounds, ds);
  }

  predicate MentionsObesity(ds: seq<string>)
  {
    exists i :: 0 <= i < |ds| && Lower(ds[i]) == "obesidad"
  }

  /** Adjustment fails exactly when obesity is listed, in any letter case, and the `"tdee"` entry is None. */
  lemma {:induction false} ApplyDiseasesFails(tdee: TdeeSlot, acc: Bounds, ds: seq<string>)
    ensures ApplyDiseases(tdee, acc, ds).Err? <==> tdee.NullTdee? && MentionsObesity(ds)
    decreases |ds|
  {
    if ds != [] {
      var prefix, last := ds[..|ds| - 1], ds[|ds| - 1];
      ApplyDiseasesFails(tdee, acc, prefix);
      var r := ApplyDiseases(tdee, acc, prefix);
      if r.Ok? {
        ApplyDiseaseOverlay(tdee, r.value, last);
        DiseaseWrites(tdee, last);
      }
      assert MentionsObesity(ds) <==> MentionsObesity(prefix) || Lower(last) == "obesidad" by {
        if MentionsObesity(ds) {
          var i :| 0 <= i < |ds| && Lower(ds[i]) == "obesidad";
          if i < |prefix| { assert prefix[i] == ds[i]; }
        }
        if MentionsObesity(prefix) {
          var i :| 0 <= i < |prefix| && Lower(prefix[i]) == "obesidad";
          assert ds[i] == prefix[i];
        }
        if Lower(last) == "obesidad" {
          assert Lower(ds[|ds| - 1]) == "obesidad";
        }
      }
    } else {
      assert !MentionsObesity(ds);
    }
  }

  /** The same for the adjuster's result: obesity with a None TDEE raises, nothing else does. */
  lemma AdjustFails(ds: seq<string>, rec: Recommendations)
    ensures Adjust(ds, rec).Err? <==> rec.tdee.NullTdee? && MentionsObesity(ds)
    ensures Adjust(ds, rec).Err? ==> Adjust(ds, rec).error == MissingTdee
  {
    ApplyDiseasesFails(rec.tdee, rec.bounds, ds);
    ApplyDiseasesError(rec.tdee, rec.bounds, ds);
  }

  /** The key a rule item lands on: the deficit factor becomes the calorie ceiling when the dict has a `"tdee"` key. */
  function Target(tdee: TdeeSlot, k: string): string
  {
    if k == CaloricDeficit && !tdee.NoTdeeKey? then CaloriasMax else k
  }

  function TargetsOf(tdee: TdeeSlot, rule: Rule): set<string>
  {
    if rule == [] then {} else {Target(tdee, rule[0].0)} + TargetsOf(tdee, rule[1..])
  }

  /** Every key some listed, known disease names. */
  function NamedKeys(tdee: TdeeSlot, ds: seq<string>): set<string>
    decreases |ds|
  {
    if ds == [] then {}
    else
      var name := Lower(ds[|ds| - 1]);
      NamedKeys(tdee, ds[..|ds| - 1]) + (if name in Rules then TargetsOf(tdee, Rules[name]) else {})
  }

  lemma WritesWithinTargets(tdee: TdeeSlot, d: string)
    requires Writes(tdee, d).Ok?
    ensures Writes(tdee, d).value.Keys <= (if Lower(d) in Rules then TargetsOf(tdee, Rules[Lower(d)]) else {})
  {
    DiseaseWrites(tdee, d);
    var diabetes := Rules["diabetes"];
    assert diabetes[1..] == [(CarbohidratosMax, 250.0)];
  }

  /** A key that no listed, known disease names keeps its presence and its value. */
  lemma {:induction false} ApplyDiseasesLeavesOtherKeys(tdee: TdeeSlot, acc: Bounds, ds: seq<string>, k: string)
    requires ApplyDiseases(tdee, acc, ds).Ok?
    requires k !in NamedKeys(tdee, ds)
    ensures var m := ApplyDiseases(tdee, acc, ds).value;
      (k in m <==> k in acc) && (k in acc ==> m[k] == acc[k])
    decreases |ds|
  {
    if ds != [] {
      var prefix, last := ds[..|ds| - 1], ds[|ds| - 1];
      var r := ApplyDiseases(tdee, acc, prefix);
      ApplyDiseasesFails(tdee, acc, prefix);
      ApplyDiseasesFails(tdee, acc, ds);
      assert MentionsObesity(prefix) ==> MentionsObesity(ds) by {
        if MentionsObesity(prefix) {
          var i :| 0 <= i < |prefix| && Lower(prefix[i]) == "obesidad";
          assert ds[i] == prefix[i];
        }
      }
      ApplyDiseasesLeavesOtherKeys(tdee, acc, prefix, k);
      ApplyDiseaseOverlay(tdee, r.value, last);
      WritesWithinTargets(tdee, last);
    }
  }

  /** A listed disease's overrides hold in the result whatever came before it: the later disease wins. */
  lemma LaterDiseaseWins(tdee: TdeeSlot, acc: Bounds, ds: seq<string>, d: string)
    requires ApplyDiseases(tdee, acc, ds + [d]).Ok? && Lower(d) in Rules
    ensures var m, rule := ApplyDiseases(tdee, acc, ds + [d]).value, Rules[Lower(d)];
      (forall i :: 0 <= i < |rule| && rule[i].0 != CaloricDeficit ==> rule[i].0 in m && m[rule[i].0] == rule[i].1) &&
      (CaloricDeficit in KeysOf(rule) && tdee.TdeeValue? ==>
         CaloriasMax in m && m[CaloriasMax] == TruncToZero(tdee.kcal as real * 0.9) as real) &&
      (CaloricDeficit in KeysOf(rule) && tdee.NoTdeeKey? ==> CaloricDeficit in m && m[CaloricDeficit] == 0.9)
  {
    ApplyDiseasesSnoc(tdee, acc, ds, d);
    var r := ApplyDiseases(tdee, acc, ds);
    ApplyDiseaseOverlay(tdee, r.value, d);
    DiseaseWrites(tdee, d);
    RuleKeys();
  }

  /** A list of diseases none of which is in the table leaves the recommendations as they were. */
  lemma {:induction false} UnknownDiseasesIgnored(ds: seq<string>, rec: Recommendations)
    requires forall i :: 0 <= i < |ds| ==> Lower(ds[i]) !in Rules
    ensures Adjust(ds, rec) == Ok(rec)
  {
    UnknownDiseasesKeepBounds(rec.tdee, rec.bounds, ds);
  }

  lemma {:induction false} UnknownDiseasesKeepBounds(tdee: TdeeSlot, acc: Bounds, ds: seq<string>)
    requires forall i :: 0 <= i < |ds| ==> Lower(ds[i]) !in Rules
    ensures ApplyDiseases(tdee, acc, ds) == Ok(acc)
    decreases |ds|
  {
    if ds != [] {
      var prefix := ds[..|ds| - 1];
      assert forall i :: 0 <= i < |prefix| ==> prefix[i] == ds[i];
      UnknownDiseasesKeepBounds(tdee, acc, prefix);
    }
  }

  /** Obesity with a TDEE of 2500 sets the ceiling to int(2500 × 0.90) = 2250 and copies no deficit key;
      without a `"tdee"` key the factor itself is copied under `calorias_deficit`. */
  lemma ObesityDeficitExample(b: Bounds)
    ensures Adjust(["obesidad"], Recommendations(b, TdeeValue(2500))) ==
            Ok(Recommendations(b[CaloriasMax := 2250.0], TdeeValue(2500)))
    ensures Adjust(["Obesidad"], Recommendations(b, NoTdeeKey)) ==
            Ok(Recommendations(b[CaloricDeficit := 0.9], NoTdeeKey))
  {
    var ds1, ds2 := ["obesidad"], ["Obesidad"];
    assert ds1[..0] == [] && ds2[..0] == [];
    assert Lower("Obesidad") == "obesidad";
    ApplyDiseaseOverlay(TdeeValue(2500), b, "obesidad");
    ApplyDiseaseOverlay(NoTdeeKey, b, "Obesidad");
    DiseaseWrites(TdeeValue(2500), "obesidad");
    DiseaseWrites(NoTdeeKey, "Obesidad");
    assert TruncToZero(2500.0 * 0.9) == 2250;
    assert b + map[CaloriasMax := 2250.0] == b[CaloriasMax := 2250.0];
    assert b + map[CaloricDeficit := 0.9] == b[CaloricDeficit := 0.9];
    assert ApplyDiseases(TdeeValue(2500), b, ds1) == ApplyDisease(TdeeValue(2500), b, "obesidad");
    assert ApplyDiseases(NoTdeeKey, b, ds2) == ApplyDisease(NoTdeeKey, b, "Obesidad");
  }
}
