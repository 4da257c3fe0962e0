/**
 The reply of the recommendation endpoint: the classifier's food name and tier,
 and a details text made of a tier-specific sentence followed by one sentence
 per user field present.
 */
module Details {
  import opened Wrappers
  import opened Text
  import opened Classifier

  /**
   The user fields the details text reads. `None` is a missing key or a JSON null; a missing or null
   disease or allergy list is the empty list. The weight is kept as the text Python prints for it.
   */
  datatype Profile = Profile(
    edad: Option<int>,
    genero: Option<string>,
    tipoSangre: Option<string>,
    rh: Option<string>,
    peso: Option<string>,
    enfermedades: seq<string>,
    alergias: seq<string>)

  /** The reply body. */
  datatype Reply = Reply(foodName: string, recommendation: string, details: string)

  /** A text field counts when it is present and non-empty. */
  predicate Given(o: Option<string>)
  {
    o.Some? && o.value != ""
  }

  const Closing := " según la información proporcionada."

  /** What the base sentence says about the food for each tier. */
  function Verdict(t: Tier): string
  {
    match t
    case Verde => "es recomendado para ti"
    case Rojo => "NO es recomendado para ti"
    case Amarillo => "debe consumirse con moderación"
  }

  /** The tier-specific sentence that opens the details. */
  function BaseMessage(foodName: string, t: Tier): (m: string)
    ensures |m| == 12 + |foodName| + 1 + |Verdict(t)| + |Closing|
    ensures m[..12] == "El alimento " && m[12..12 + |foodName|] == foodName
    ensures m[|m| - |Closing|..] == Closing
  {
    "El alimento " + foodName + " " + Verdict(t) + Closing
  }

  /** Different tiers give different sentences for the same food. */
  lemma BaseMessageDistinguishesTiers(foodName: string, t: Tier, t': Tier)
    requires t != t'
    ensures BaseMessage(foodName, t) != BaseMessage(foodName, t')
  {
    var m, m' := BaseMessage(foodName, t), BaseMessage(foodName, t');
    var n := 12 + |foodName| + 1;
    assert m[n..|m| - |Closing|] == Verdict(t);
    assert m'[n..|m'| - |Closing|] == Verdict(t');
  }

  function Count(b: bool): nat { if b then 1 else 0 }

  /** The sentence for the age; an age of 0 is still reported. */
  function AgeParts(p: Profile): seq<string>
  {
    if p.edad.Some? then ["Edad: " + IntToString(p.edad.value) + " años."] else []
  }

  function GenderParts(p: Profile): seq<string>
  {
    if Given(p.genero) then ["Género: " + p.genero.value + "."] else []
  }

  /** The blood type, with the Rh factor appended only when both are given. */
  function BloodTypeParts(p: Profile): seq<string>
  {
    if Given(p.tipoSangre) && Given(p.rh) then ["Tipo de sangre: " + p.tipoSangre.value + p.rh.value + "."]
    else if Given(p.tipoSangre) then ["Tipo de sangre: " + p.tipoSangre.value + "."]
    else []
  }

  function WeightParts(p: Profile): seq<string>
  {
    if p.peso.Some? then ["Peso registrado: " + p.peso.value + " kg."] else []
  }

  function DiseasesParts(p: Profile): seq<string>
  {
    if p.enfermedades != [] then ["Enfermedades reportadas: " + Join(", ", p.enfermedades) + "."] else []
  }

  function AllergiesParts(p: Profile): seq<string>
  {
    if p.alergias != [] then ["Alergias reportadas: " + Join(", ", p.alergias) + "."] else []
  }

  /** The detail sentences, in the order the fields are examined: one for each field present. */
  function DetailParts(p: Profile): (r: seq<string>)
    ensures |r| == Count(p.edad.Some?) + Count(Given(p.genero)) + Count(Given(p.tipoSangre)) +
                   Count(p.peso.Some?) + Count(p.enfermedades != []) + Count(p.alergias != [])
  {
    AgeParts(p) + GenderParts(p) + BloodTypeParts(p) + WeightParts(p) + DiseasesParts(p) + AllergiesParts(p)
  }

  /** The base sentence, then a space and the parts joined by spaces when there are any. */
  function ComposeDetails(base: string, parts: seq<string>): (r: string)
    ensures |r| >= |base| && r[..|base|] == base
    ensures r == base <==> parts == []
    ensures parts != [] ==> r[|base|] == ' ' && r[|base| + 1..] == Join(" ", parts)
  {
    if parts == [] then base else base + " " + Join(" ", parts)
  }

  /** Builds the details text by appending one sentence per field, then joining them after the base sentence. */
  method BuildDetails(p: Profile, foodName: string, t: Tier) returns (details: string)
    ensures details == ComposeDetails(BaseMessage(foodName, t), DetailParts(p))
  {
    var parts: seq<string> := [];
    if p.edad.Some? {
      parts := parts + ["Edad: " + IntToString(p.edad.value) + " años."];
    }
    assert parts == AgeParts(p);
    if Given(p.genero) {
      parts := parts + ["Género: " + p.genero.value + "."];
    }
    assert parts == AgeParts(p) + GenderParts(p);
    if Given(p.tipoSangre) && Given(p.rh) {
      parts := parts + ["Tipo de sangre: " + p.tipoSangre.value + p.rh.value + "."];
    } else if Given(p.tipoSangre) {
      parts := parts + ["Tipo de sangre: " + p.tipoSangre.value + "."];
    }
    assert parts == AgeParts(p) + GenderParts(p) + BloodTypeParts(p);
    if p.peso.Some? {
      parts := parts + ["Peso registrado: " + p.peso.value + " kg."];
    }
    assert parts == AgeParts(p) + GenderParts(p) + BloodTypeParts(p) + WeightParts(p);
    if p.enfermedades != [] {
      parts := parts + ["Enfermedades reportadas: " + Join(", ", p.enfermedades) + "."];
    }
    assert parts == AgeParts(p) + GenderParts(p) + BloodTypeParts(p) + WeightParts(p) + DiseasesParts(p);
    if p.alergias != [] {
      parts := parts + ["Alergias reportadas: " + Join(", ", p.alergias) + "."];
    }
    assert parts == DetailParts(p);
    var base := BaseMessage(foodName, t);
    if parts != [] {
      details := base + " " + Join(" ", parts);
    } else {
      details := base;
    }
  }

  /** The endpoint's reply for an uploaded file name and the user's fields. */
  method Recommend(filename: string, p: Profile) returns (reply: Reply)
    ensures reply.foodName == Classify(filename).foodName
    ensures reply.recommendation == TierName(Classify(filename).tier)
    ensures reply.details == ComposeDetails(BaseMessage(reply.foodName, Classify(filename).tier), DetailParts(p))
  {
    var prediction := Classify(filename);
    var details := BuildDetails(p, prediction.foodName, prediction.tier);
    reply := Reply(prediction.foodName, TierName(prediction.tier), details);
  }

  // ---------------------------------------------------------------------------
  // Properties of the details text
  // ---------------------------------------------------------------------------

  /** There is no detail sentence exactly when none of the fields is present; an Rh factor alone adds nothing. */
  lemma NoPartsExactlyWhenNoFields(p: Profile)
    ensures DetailParts(p) == [] <==>
      p.edad.None? && !Given(p.genero) && !Given(p.tipoSangre) && p.peso.None? &&
      p.enfermedades == [] && p.alergias == []
  {
  }

  /** With no field present the details are exactly the base sentence. */
  lemma EmptyProfileGivesBaseMessage(p: Profile, foodName: string, t: Tier)
    requires p.edad.None? && !Given(p.genero) && !Given(p.tipoSangre) && p.peso.None?
    requires p.enfermedades == [] && p.alergias == []
    ensures ComposeDetails(BaseMessage(foodName, t), DetailParts(p)) == BaseMessage(foodName, t)
  {
    NoPartsExactlyWhenNoFields(p);
  }

  /** Without a blood type the Rh factor is never shown: changing it changes nothing. */
  lemma RhNeedsBloodType(p: Profile, q: Profile)
    requires !Given(p.tipoSangre)
    requires p.edad == q.edad && p.genero == q.genero && p.tipoSangre == q.tipoSangre
    requires p.peso == q.peso && p.enfermedades == q.enfermedades && p.alergias == q.alergias
    ensures DetailParts(p) == DetailParts(q)
  {
  }

  /** With a blood type but no usable Rh factor the blood-type sentence is the same whatever `rh` holds. */
  lemma RhNeedsToBeGiven(p: Profile, q: Profile)
    requires !Given(p.rh) && !Given(q.rh)
    requires p.edad == q.edad && p.genero == q.genero && p.tipoSangre == q.tipoSangre
    requires p.peso == q.peso && p.enfermedades == q.enfermedades && p.alergias == q.alergias
    ensures DetailParts(p) == DetailParts(q)
  {
  }

  /** An age of 0 is present, so it is reported, and it comes first. */
  lemma AgeZeroReported(p: Profile)
    requires p.edad == Some(0)
    ensures |DetailParts(p)| >= 1 && DetailParts(p)[0] == "Edad: 0 años."
  {
    assert IntToString(0) == "0";
  }

  /** The allergy sentence, when present, is always the last one. */
  lemma AllergiesLast(p: Profile)
    requires p.alergias != []
    ensures |DetailParts(p)| >= 1
    ensures DetailParts(p)[|DetailParts(p)| - 1] == "Alergias reportadas: " + Join(", ", p.alergias) + "."
  {
  }
}
