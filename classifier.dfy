/**
 `simulate_model_from_filename`: a stand-in for an image model that derives a
 food name and a traffic-light tier from the uploaded file's name.
 */
module Classifier {
  import opened Wrappers
  import opened Text

  /** The traffic-light recommendation. */
  datatype Tier = Verde | Rojo | Amarillo

  /** The tier as it appears in the reply. */
  function TierName(t: Tier): string
  {
    match t
    case Verde => "VERDE"
    case Rojo => "ROJO"
    case Amarillo => "AMARILLO"
  }

  datatype Prediction = Prediction(foodName: string, tier: Tier)

  const GreenKeywords: seq<string> := ["manzana", "zanahoria", "vegetal"]
  const RedKeywords: seq<string> := ["hamburguesa", "frito", "pizza"]
  const UnknownFood := "Desconocido"

  /** `keywords[k]` is the first keyword, in list order, that occurs in `s`. */
  predicate FirstHit(keywords: seq<string>, s: string, k: int)
  {
    && 0 <= k < |keywords|
    && Contains(s, keywords[k])
    && forall j :: 0 <= j < k ==> !Contains(s, keywords[j])
  }

  /** No keyword of the list occurs in `s`. */
  predicate NoHit(keywords: seq<string>, s: string)
  {
    forall j :: 0 <= j < |keywords| ==> !Contains(s, keywords[j])
  }

  /** A list has at most one first hit. */
  lemma FirstHitUnique(keywords: seq<string>, s: string, k: int, k': int)
    requires FirstHit(keywords, s, k) && FirstHit(keywords, s, k')
    ensures k == k'
  {
  }

  /** The loop over a keyword list that returns on the first keyword found in `s`. */
  function FirstMatch(keywords: seq<string>, s: string): (r: Option<string>)
    ensures r.None? <==> NoHit(keywords, s)
    ensures r.Some? ==> exists k :: FirstHit(keywords, s, k) && keywords[k] == r.value
    decreases |keywords|
  {
    if keywords == [] then None
    else if Contains(s, keywords[0]) then
      assert FirstHit(keywords, s, 0);
      Some(keywords[0])
    else
      var r := FirstMatch(keywords[1..], s);
      assert NoHit(keywords, s) <==> NoHit(keywords[1..], s) by {
        forall j | 1 <= j < |keywords| ensures keywords[j] == keywords[1..][j - 1] { }
      }
      assert r.Some? ==> exists k :: FirstHit(keywords, s, k) && keywords[k] == r.value by {
        if r.Some? {
          var k :| FirstHit(keywords[1..], s, k) && keywords[1..][k] == r.value;
          assert FirstHit(keywords, s, k + 1) by {
            forall j | 1 <= j < k + 1 ensures keywords[j] == keywords[1..][j - 1] { }
          }
        }
      }
      r
  }

  /**
   The classification of a file name. An empty name is unknown and amber. Otherwise the lower-cased name is
   searched for the green keywords, then the red ones; a hit yields the keyword itself, capitalised, and its
   tier. Without a hit the name minus its last extension, capitalised, is amber.
   */
  function Classify(filename: string): (p: Prediction)
    ensures filename == [] ==> p == Prediction(UnknownFood, Amarillo)
    ensures filename != [] ==> forall k :: FirstHit(GreenKeywords, Lower(filename), k) ==>
      p == Prediction(Capitalize(GreenKeywords[k]), Verde)
    ensures filename != [] && NoHit(GreenKeywords, Lower(filename)) ==>
      forall k :: FirstHit(RedKeywords, Lower(filename), k) ==> p == Prediction(Capitalize(RedKeywords[k]), Rojo)
    ensures filename != [] && NoHit(GreenKeywords, Lower(filename)) && NoHit(RedKeywords, Lower(filename)) ==>
      p == Prediction(Capitalize(StripExtension(filename)), Amarillo)
  {
    if filename == [] then Prediction(UnknownFood, Amarillo)
    else
      var name := Lower(filename);
      var green := FirstMatch(GreenKeywords, name);
      if green.Some? then
        assert forall k :: FirstHit(GreenKeywords, name, k) ==> green.value == GreenKeywords[k] by {
          forall k | FirstHit(GreenKeywords, name, k) ensures green.value == GreenKeywords[k] {
            var k' :| FirstHit(GreenKeywords, name, k') && GreenKeywords[k'] == green.value;
            FirstHitUnique(GreenKeywords, name, k, k');
          }
        }
        Prediction(Capitalize(green.value), Verde)
      else
        var red := FirstMatch(RedKeywords, name);
        if red.Some? then
          assert forall k :: FirstHit(RedKeywords, name, k) ==> red.value == RedKeywords[k] by {
            forall k | FirstHit(RedKeywords, name, k) ensures red.value == RedKeywords[k] {
              var k' :| FirstHit(RedKeywords, name, k') && RedKeywords[k'] == red.value;
              FirstHitUnique(RedKeywords, name, k, k');
            }
          }
          Prediction(Capitalize(red.value), Rojo)
        else
          Prediction(Capitalize(StripExtension(filename)), Amarillo)
  }

  /** A green keyword anywhere in the name makes the tier green, whatever red keywords it also holds. */
  lemma GreenBeatsRed(filename: string, k: int)
    requires 0 <= k < |GreenKeywords| && Contains(Lower(filename), GreenKeywords[k])
    ensures Classify(filename).tier == Verde
  {
    var name := Lower(filename);
    var f := FirstMatch(GreenKeywords, name);
    assert !NoHit(GreenKeywords, name);
    var k' :| FirstHit(GreenKeywords, name, k') && GreenKeywords[k'] == f.value;
  }

  /** Capitalising a lower-case word upper-cases its first letter and keeps the rest. */
  lemma CapitalizeLowerWord(w: string)
    requires w != [] && IsLowerCase(w)
    ensures Capitalize(w) == [UpperChar(w[0])] + w[1..]
  {
    LowerIsLowerCase(w[1..]);
  }

  /** The keywords as they are returned as food names. */
  lemma CapitalizedKeywords()
    ensures Capitalize("manzana") == "Manzana" && Capitalize("zanahoria") == "Zanahoria"
    ensures Capitalize("vegetal") == "Vegetal" && Capitalize("hamburguesa") == "Hamburguesa"
    ensures Capitalize("frito") == "Frito" && Capitalize("pizza") == "Pizza"
  {
    CapitalizeLowerWord("manzana");
    CapitalizeLowerWord("zanahoria");
    CapitalizeLowerWord("vegetal");
    CapitalizeLowerWord("hamburguesa");
    CapitalizeLowerWord("frito");
    CapitalizeLowerWord("pizza");
  }

  /** On a keyword hit the food name is one of the six capitalised keywords, whatever else the file name says. */
  lemma HitNameIsKeyword(filename: string)
    requires Classify(filename).tier != Amarillo
    ensures Classify(filename).foodName in
      ["Manzana", "Zanahoria", "Vegetal", "Hamburguesa", "Frito", "Pizza"]
  {
    var name := Lower(filename);
    CapitalizedKeywords();
    if FirstMatch(GreenKeywords, name).Some? {
      var k :| FirstHit(GreenKeywords, name, k) && GreenKeywords[k] == FirstMatch(GreenKeywords, name).value;
    } else {
      var k :| FirstHit(RedKeywords, name, k) && RedKeywords[k] == FirstMatch(RedKeywords, name).value;
    }
  }

  /** A name holding both a red and a green keyword is green, named after the green one. */
  lemma GreenAndRedExample()
    ensures Classify("Pizza_Manzana.jpg") == Prediction("Manzana", Verde)
  {
    var name := Lower("Pizza_Manzana.jpg");
    assert name == "pizza_manzana.jpg";
    assert OccursAt(name, "manzana", 6);
    CapitalizedKeywords();
    GreenBeatsRed("Pizza_Manzana.jpg", 0);
  }
}
