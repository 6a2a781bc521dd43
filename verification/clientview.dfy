/**
 * The client side of the application: the talent-matching engine that
 * suggests up to ten voice talents for a casting role, and the casting
 * wizard (brief -> review -> success) that turns generated roles into a new
 * project.
 */
module ClientView {
  import opened JsText
  import opened Seqs
  import opened Model
  import MockData

  // ---------------------------------------------------------------------
  // Normalisers

  datatype Gender = Female | Male | Any

  /** Tokens that mark a female voice, tested first. */
  const FemaleTokens: seq<string> := ["fem", "mujer", "woman", "chica", "niña"]
  /** Tokens that mark a male voice, tested only when no female token occurs. */
  const MaleTokens: seq<string> := ["masc", "hombre", "man", "chico", "niño"]

  /** Maps free-text gender to a category by ordered substring tests on the
      lower-cased text; female tokens win over male ones. */
  function NormalizeGender(g: string): (r: Gender)
    ensures g == "" ==> r == Any
    ensures g != "" ==>
      (r == Female <==> exists k :: 0 <= k < |FemaleTokens| && Contains(ToLower(g), FemaleTokens[k]))
    ensures g != "" ==>
      (r == Male <==>
        (forall k :: 0 <= k < |FemaleTokens| ==> !Contains(ToLower(g), FemaleTokens[k]))
        && exists k :: 0 <= k < |MaleTokens| && Contains(ToLower(g), MaleTokens[k]))
  {
    if g == "" then Any
    else
      var lower := ToLower(g);
      assert FemaleTokens == [FemaleTokens[0], FemaleTokens[1], FemaleTokens[2], FemaleTokens[3], FemaleTokens[4]];
      assert MaleTokens == [MaleTokens[0], MaleTokens[1], MaleTokens[2], MaleTokens[3], MaleTokens[4]];
      if Contains(lower, "fem") || Contains(lower, "mujer") || Contains(lower, "woman")
         || Contains(lower, "chica") || Contains(lower, "niña") then Female
      else if Contains(lower, "masc") || Contains(lower, "hombre") || Contains(lower, "man")
         || Contains(lower, "chico") || Contains(lower, "niño") then Male
      else Any
  }

  /** The normaliser read as a table: the female token list is consulted
      first, then the male one, and anything else is `Any`. */
  lemma GenderByTokens(g: string)
    ensures NormalizeGender(g) ==
      if g == "" then Any
      else if ContainsAny(ToLower(g), FemaleTokens) then Female
      else if ContainsAny(ToLower(g), MaleTokens) then Male
      else Any
  {
    ContainsAnyIff(ToLower(g), FemaleTokens);
    ContainsAnyIff(ToLower(g), MaleTokens);
  }

  /** The seed data's own spellings: "Masculino" is male, "Femenino" is
      female, and the "Cualquiera" of the documentary role is `Any`. */
  lemma GenderExamples()
    ensures NormalizeGender("Masculino") == Male
    ensures NormalizeGender("Femenino") == Female
    ensures NormalizeGender("Cualquiera") == Any
    ensures NormalizeGender("") == Any
  {
    MasculinoIsMale("Masculino");
    FemeninoIsFemale("Femenino");
    CualquieraIsAny("Cualquiera");
  }

  lemma MasculinoIsMale(g: string)
    requires g == "Masculino"
    ensures NormalizeGender(g) == Male
  {
    var lower := MasculinoLower(g);
    MasculinoNotFemale(lower);
    assert lower[..4] == "masc";
    GenderByTokens(g);
  }

  lemma MasculinoLower(g: string) returns (lower: string)
    requires g == "Masculino"
    ensures lower == ToLower(g) && lower == "masculino"
  {
    lower := ToLower(g);
    assert lower == "masculino";
  }

  lemma MasculinoNotFemale(lower: string)
    requires lower == "masculino"
    ensures !ContainsAny(lower, FemaleTokens)
  {
    ContainsNone(lower, FemaleTokens, [0, 2, 0, 1, 2]);
  }

  lemma FemeninoIsFemale(g: string)
    requires g == "Femenino"
    ensures NormalizeGender(g) == Female
  {
    var lower := FemeninoLower(g);
    assert lower[..3] == "fem";
    GenderByTokens(g);
  }

  lemma FemeninoLower(g: string) returns (lower: string)
    requires g == "Femenino"
    ensures lower == ToLower(g) && lower == "femenino"
  {
    lower := ToLower(g);
    assert lower == "femenino";
  }

  lemma CualquieraIsAny(g: string)
    requires g == "Cualquiera"
    ensures NormalizeGender(g) == Any
  {
    var lower := CualquieraLower(g);
    CualquieraNotFemale(lower);
    CualquieraNotMale(lower);
    GenderByTokens(g);
  }

  lemma CualquieraLower(g: string) returns (lower: string)
    requires g == "Cualquiera"
    ensures lower == ToLower(g) && lower == "cualquiera"
  {
    lower := ToLower(g);
    assert lower == "cualquiera";
  }

  lemma CualquieraNotFemale(lower: string)
    requires lower == "cualquiera"
    ensures !ContainsAny(lower, FemaleTokens)
  {
    ContainsNone(lower, FemaleTokens, [0, 0, 0, 1, 2]);
  }

  lemma CualquieraNotMale(lower: string)
    requires lower == "cualquiera"
    ensures !ContainsAny(lower, MaleTokens)
  {
    ContainsNone(lower, MaleTokens, [0, 0, 0, 1, 2]);
  }

  /** Female tokens take priority: "woman" contains the male token "man"
      and is still female. */
  lemma FemaleWinsOverMale()
    ensures Contains(ToLower("woman"), "man") && Contains(ToLower("woman"), "woman")
    ensures NormalizeGender("woman") == Female
  {
    assert ToLower("woman") == "woman";
    ContainsAt("woman", "man", 2);
    assert "woman"[..5] == "woman";
  }

  /** Keyword groups of the age ladder, tested in this order; group `g`
      yields the canonical label `MockData.AgeLabels[g]`. */
  const AgeKeywords: seq<seq<string>> := [
    ["niñ", "child", "kid", "5-10"],
    ["adol", "teen", "oven", "12-18", "15"],
    ["20", "veinte", "twenty"],
    ["30", "treinta", "thirty"],
    ["40", "cuarenta", "forty"],
    ["50", "cincuenta", "fifty"],
    ["60", "sesenta", "sixty", "senior", "anciano", "abuel"]
  ]

  /** The vague terms tested after every group. */
  const AdultKeywords: seq<string> := ["adult", "adulto"]

  /** What an adult-only requirement widens to. */
  const AdultRanges: seq<string> := ["20-30", "30-40", "40-50", "50-60"]

  /** Maps a free-text age requirement to the canonical labels a talent must
      carry; the empty list means "no age constraint". */
  function CompatibleAgeRanges(inputAge: string): (r: seq<string>)
    ensures forall i :: 0 <= i < |r| ==> r[i] in MockData.AgeLabels
    ensures r == [] || |r| == 1 || r == AdultRanges
  {
    var lower := ToLower(inputAge);
    if Contains(lower, "niñ") || Contains(lower, "child") || Contains(lower, "kid") || Contains(lower, "5-10") then
      ["Niño (5-10)"]
    else if Contains(lower, "adol") || Contains(lower, "teen") || Contains(lower, "oven") || Contains(lower, "12-18")
      || Contains(lower, "15") then
      ["Adolescente (12-18)"]
    else if Contains(lower, "20") || Contains(lower, "veinte") || Contains(lower, "twenty") then
      ["20-30"]
    else if Contains(lower, "30") || Contains(lower, "treinta") || Contains(lower, "thirty") then
      ["30-40"]
    else if Contains(lower, "40") || Contains(lower, "cuarenta") || Contains(lower, "forty") then
      ["40-50"]
    else if Contains(lower, "50") || Contains(lower, "cincuenta") || Contains(lower, "fifty") then
      ["50-60"]
    else if Contains(lower, "60") || Contains(lower, "sesenta") || Contains(lower, "sixty") || Contains(lower, "senior")
      || Contains(lower, "anciano") || Contains(lower, "abuel") then
      ["60+"]
    else if Contains(lower, "adult") || Contains(lower, "adulto") then
      AdultRanges
    else
      []
  }

  /** The first keyword group, from `g` on, that occurs in `lower`. */
  function FirstAgeGroup(lower: string, g: nat): (r: Option<nat>)
    ensures r.Some? ==> g <= r.value < |AgeKeywords| && ContainsAny(lower, AgeKeywords[r.value])
    decreases |AgeKeywords| - g
  {
    if g >= |AgeKeywords| then None
    else if ContainsAny(lower, AgeKeywords[g]) then Some(g)
    else FirstAgeGroup(lower, g + 1)
  }

  /** The group `FirstAgeGroup` picks is the first that occurs: none before it
      occurs, and when it picks none, no group from `g` on occurs. */
  lemma {:induction false} FirstAgeGroupIsFirst(lower: string, g: nat)
    ensures forall j ::
      g <= j < |AgeKeywords| && (FirstAgeGroup(lower, g).None? || j < FirstAgeGroup(lower, g).value)
      ==> !ContainsAny(lower, AgeKeywords[j])
    decreases |AgeKeywords| - g
  {
    if g < |AgeKeywords| && !ContainsAny(lower, AgeKeywords[g]) {
      FirstAgeGroupIsFirst(lower, g + 1);
    }
  }

  /** The age ladder is a table lookup: the first keyword group that occurs
      gives its one label; if none does, an adult term widens to the four
      middle labels; otherwise there is no constraint. */
  lemma AgeLadder(inputAge: string)
    ensures var lower := ToLower(inputAge);
      CompatibleAgeRanges(inputAge) ==
        match FirstAgeGroup(lower, 0)
        case Some(g) => [MockData.AgeLabels[g]]
        case None => if ContainsAny(lower, AdultKeywords) then AdultRanges else []
  {
    var lower := ToLower(inputAge);
    AgeGroupsUnfold(lower);
    if ContainsAny(lower, AgeKeywords[0]) {
    } else if ContainsAny(lower, AgeKeywords[1]) {
      assert FirstAgeGroup(lower, 0) == FirstAgeGroup(lower, 1);
    } else if ContainsAny(lower, AgeKeywords[2]) {
      assert FirstAgeGroup(lower, 0) == FirstAgeGroup(lower, 2);
    } else if ContainsAny(lower, AgeKeywords[3]) {
      assert FirstAgeGroup(lower, 0) == FirstAgeGroup(lower, 2) == FirstAgeGroup(lower, 3);
    } else if ContainsAny(lower, AgeKeywords[4]) {
      assert FirstAgeGroup(lower, 0) == FirstAgeGroup(lower, 2) == FirstAgeGroup(lower, 4);
    } else if ContainsAny(lower, AgeKeywords[5]) {
      assert FirstAgeGroup(lower, 0) == FirstAgeGroup(lower, 2) == FirstAgeGroup(lower, 4) == FirstAgeGroup(lower, 5);
    } else {
      assert FirstAgeGroup(lower, 0) == FirstAgeGroup(lower, 2) == FirstAgeGroup(lower, 4) == FirstAgeGroup(lower, 6);
    }
  }

  /** Each keyword group, spelled out as the chain of `includes` tests it stands for. */
  lemma AgeGroupsUnfold(lower: string)
    ensures ContainsAny(lower, AgeKeywords[0]) <==>
      Contains(lower, "niñ") || Contains(lower, "child") || Contains(lower, "kid") || Contains(lower, "5-10")
    ensures ContainsAny(lower, AgeKeywords[1]) <==>
      Contains(lower, "adol") || Contains(lower, "teen") || Contains(lower, "oven") || Contains(lower, "12-18") || Contains(lower, "15")
    ensures ContainsAny(lower, AgeKeywords[2]) <==>
      Contains(lower, "20") || Contains(lower, "veinte") || Contains(lower, "twenty")
    ensures ContainsAny(lower, AgeKeywords[3]) <==>
      Contains(lower, "30") || Contains(lower, "treinta") || Contains(lower, "thirty")
    ensures ContainsAny(lower, AgeKeywords[4]) <==>
      Contains(lower, "40") || Contains(lower, "cuarenta") || Contains(lower, "forty")
    ensures ContainsAny(lower, AgeKeywords[5]) <==>
      Contains(lower, "50") || Contains(lower, "cincuenta") || Contains(lower, "fifty")
    ensures ContainsAny(lower, AgeKeywords[6]) <==>
      Contains(lower, "60") || Contains(lower, "sesenta") || Contains(lower, "sixty") || Contains(lower, "senior") || Contains(lower, "anciano") || Contains(lower, "abuel")
    ensures ContainsAny(lower, AdultKeywords) <==> Contains(lower, "adult") || Contains(lower, "adulto")
  {
    AgeGroupUnfold0(lower);
    AgeGroupUnfold1(lower);
    AgeGroupUnfold2(lower);
    AgeGroupUnfold3(lower);
    AgeGroupUnfold4(lower);
    AgeGroupUnfold5(lower);
    AgeGroupUnfold6(lower);
    ContainsAnyIff(lower, AdultKeywords);
    assert AdultKeywords == [AdultKeywords[0], AdultKeywords[1]];
  }

  lemma AgeGroupUnfold0(lower: string)
    ensures ContainsAny(lower, AgeKeywords[0]) <==>
      Contains(lower, "niñ") || Contains(lower, "child") || Contains(lower, "kid") || Contains(lower, "5-10")
  {
    var a := AgeKeywords[0];
    ContainsAnyIff(lower, a);
    assert a == [a[0], a[1], a[2], a[3]];
  }

  lemma AgeGroupUnfold1(lower: string)
    ensures ContainsAny(lower, AgeKeywords[1]) <==>
      Contains(lower, "adol") || Contains(lower, "teen") || Contains(lower, "oven") || Contains(lower, "12-18") || Contains(lower, "15")
  {
    var a := AgeKeywords[1];
    ContainsAnyIff(lower, a);
    assert a == [a[0], a[1], a[2], a[3], a[4]];
  }

  lemma AgeGroupUnfold2(lower: string)
    ensures ContainsAny(lower, AgeKeywords[2]) <==>
      Contains(lower, "20") || Contains(lower, "veinte") || Contains(lower, "twenty")
  {
    var a := AgeKeywords[2];
    ContainsAnyIff(lower, a);
    assert a == [a[0], a[1], a[2]];
  }

  lemma AgeGroupUnfold3(lower: string)
    ensures ContainsAny(lower, AgeKeywords[3]) <==>
      Contains(lower, "30") || Contains(lower, "treinta") || Contains(lower, "thirty")
  {
    var a := AgeKeywords[3];
    ContainsAnyIff(lower, a);
    assert a == [a[0], a[1], a[2]];
  }

  lemma AgeGroupUnfold4(lower: string)
    ensures ContainsAny(lower, AgeKeywords[4]) <==>
      Contains(lower, "40") || Contains(lower, "cuarenta") || Contains(lower, "forty")
  {
    var a := AgeKeywords[4];
    ContainsAnyIff(lower, a);
    assert a == [a[0], a[1], a[2]];
  }

  lemma AgeGroupUnfold5(lower: string)
    ensures ContainsAny(lower, AgeKeywords[5]) <==>
      Contains(lower, "50") || Contains(lower, "cincuenta") || Contains(lower, "fifty")
  {
    var a := AgeKeywords[5];
    ContainsAnyIff(lower, a);
    assert a == [a[0], a[1], a[2]];
  }

  lemma AgeGroupUnfold6(lower: string)
    ensures ContainsAny(lower, AgeKeywords[6]) <==>
      Contains(lower, "60") || Contains(lower, "sesenta") || Contains(lower, "sixty") || Contains(lower, "senior") || Contains(lower, "anciano") || Contains(lower, "abuel")
  {
    var a := AgeKeywords[6];
    ContainsAnyIff(lower, a);
    assert a == [a[0], a[1], a[2], a[3], a[4], a[5]];
  }

  /** The adult fan-out happens exactly when no keyword group occurs and an
      adult term does; with neither, there is no age constraint. */
  lemma AdultFanOut(inputAge: string, lower: string)
    requires ToLower(inputAge) == lower
    requires forall j :: 0 <= j < |AgeKeywords| ==> !ContainsAny(lower, AgeKeywords[j])
    ensures ContainsAny(lower, AdultKeywords) ==> CompatibleAgeRanges(inputAge) == AdultRanges
    ensures !ContainsAny(lower, AdultKeywords) ==> CompatibleAgeRanges(inputAge) == []
  {
    AgeLadder(inputAge);
  }

  /** "adulto" widens to the four middle labels. */
  lemma AdultoExample()
    ensures CompatibleAgeRanges("adulto") == ["20-30", "30-40", "40-50", "50-60"]
  {
    AdultoLower();
    AdultoKeywords();
    AdultFanOut("adulto", "adulto");
  }

  /** "niño de 7 años" is a child's voice. */
  lemma ChildPhraseExample()
    ensures CompatibleAgeRanges("niño de 7 años") == ["Niño (5-10)"]
  {
    ChildPhraseLower();
    assert "niño de 7 años"[..3] == "niñ";
    AgeGroupSelectedVia("niño de 7 años", "niño de 7 años", 0);
  }

  lemma AdultoLower()
    ensures ToLower("adulto") == "adulto"
  {
  }

  lemma ChildPhraseLower()
    ensures ToLower("niño de 7 años") == "niño de 7 años"
  {
  }

  lemma AdultoKeywords()
    ensures forall j :: 0 <= j < |AgeKeywords| ==> !ContainsAny("adulto", AgeKeywords[j])
    ensures ContainsAny("adulto", AdultKeywords)
  {
    forall j | 0 <= j < |AgeKeywords|
      ensures !ContainsAny("adulto", AgeKeywords[j])
    {
      AdultoGroup("adulto", j);
    }
    assert "adulto"[..5] == "adult";
  }

  /** No keyword of group `g` occurs in "adulto". */
  lemma AdultoGroup(lower: string, g: nat)
    requires lower == "adulto" && g < |AgeKeywords|
    ensures !ContainsAny(lower, AgeKeywords[g])
  {
    if g == 0 {
      ContainsNone(lower, AgeKeywords[0], [0, 0, 0, 0]);
    } else if g == 1 {
      AdultoTeenGroup(lower);
    } else if g == 2 {
      ContainsNone(lower, AgeKeywords[2], [0, 0, 1]);
    } else if g == 3 {
      ContainsNone(lower, AgeKeywords[3], [0, 1, 1]);
    } else if g == 4 {
      ContainsNone(lower, AgeKeywords[4], [0, 0, 0]);
    } else if g == 5 {
      ContainsNone(lower, AgeKeywords[5], [0, 0, 0]);
    } else {
      ContainsNone(lower, AgeKeywords[6], [0, 0, 0, 0, 1, 1]);
    }
  }

  lemma AdultoTeenGroup(lower: string)
    requires lower == "adulto"
    ensures !ContainsAny(lower, AgeKeywords[1])
  {
    NotContainsPair(lower, "adol", 2);
    ContainsNone(lower, AgeKeywords[1][1..], [1, 1, 0, 0]);
    GroupAbsentByHead(lower, 1);
  }

  lemma GroupAbsentByHead(lower: string, g: nat)
    requires g < |AgeKeywords|
    requires !Contains(lower, AgeKeywords[g][0]) && !ContainsAny(lower, AgeKeywords[g][1..])
    ensures !ContainsAny(lower, AgeKeywords[g])
  {
  }

  /** When group `g` is the first keyword group that occurs, the result is
      exactly its label. */
  lemma AgeGroupSelected(inputAge: string, g: nat)
    requires g < |AgeKeywords|
    requires forall j :: 0 <= j < g ==> !ContainsAny(ToLower(inputAge), AgeKeywords[j])
    requires ContainsAny(ToLower(inputAge), AgeKeywords[g])
    ensures CompatibleAgeRanges(inputAge) == [MockData.AgeLabels[g]]
  {
    AgeLadder(inputAge);
    FirstAgeGroupIsFirst(ToLower(inputAge), 0);
  }

  lemma AgeGroupSelectedVia(inputAge: string, lower: string, g: nat)
    requires ToLower(inputAge) == lower
    requires g < |AgeKeywords|
    requires forall j :: 0 <= j < g ==> !ContainsAny(lower, AgeKeywords[j])
    requires ContainsAny(lower, AgeKeywords[g])
    ensures CompatibleAgeRanges(inputAge) == [MockData.AgeLabels[g]]
  {
    AgeGroupSelected(inputAge, g);
  }

  /** No keyword group occurs in a text holding, for each group `j < g`, a
      missing character of each of its keywords at the positions `at[j]`. */
  lemma NoGroupBefore(lower: string, g: nat, at: seq<seq<nat>>)
    requires g <= |AgeKeywords| && |at| == g
    requires forall j :: 0 <= j < g ==> |at[j]| == |AgeKeywords[j]|
    requires forall j, k :: 0 <= j < g && 0 <= k < |AgeKeywords[j]| ==>
      at[j][k] < |AgeKeywords[j][k]| && AgeKeywords[j][k][at[j][k]] !in lower
    ensures forall j :: 0 <= j < g ==> !ContainsAny(lower, AgeKeywords[j])
  {
    forall j | 0 <= j < g {
      ContainsNone(lower, AgeKeywords[j], at[j]);
    }
  }

  lemma LabelFixedPointChild(text: string)
    requires text == "Niño (5-10)"
    ensures CompatibleAgeRanges(text) == [text]
  {
    var lower := LabelLowerChild(text);
    assert lower[..3] == "niñ";
    assert ContainsAny(lower, AgeKeywords[0]);
    AgeGroupSelectedVia(text, lower, 0);
  }

  lemma LabelLowerChild(text: string) returns (lower: string)
    requires text == "Niño (5-10)"
    ensures lower == ToLower(text) && lower == "niño (5-10)"
  {
    lower := ToLower(text);
    assert lower == "niño (5-10)";
  }

  lemma LabelFixedPointTeen(text: string)
    requires text == "Adolescente (12-18)"
    ensures CompatibleAgeRanges(text) == [text]
  {
    var lower := LabelLowerTeen(text);
    NoGroupBefore(lower, 1, [[1, 1, 0, 0]]);
    assert lower[..4] == "adol";
    assert ContainsAny(lower, AgeKeywords[1]);
    AgeGroupSelectedVia(text, lower, 1);
  }

  lemma LabelLowerTeen(text: string) returns (lower: string)
    requires text == "Adolescente (12-18)"
    ensures lower == ToLower(text) && lower == "adolescente (12-18)"
  {
    lower := ToLower(text);
    assert lower == "adolescente (12-18)";
  }

  lemma LabelFixedPointTwenties(text: string)
    requires text == "20-30"
    ensures CompatibleAgeRanges(text) == [text]
  {
    var lower := LabelLowerTwenties(text);
    NoGroupBefore(lower, 2, [[0, 0, 0, 0], [0, 0, 0, 0, 0]]);
    assert lower[..2] == "20";
    assert ContainsAny(lower, AgeKeywords[2]);
    AgeGroupSelectedVia(text, lower, 2);
  }

  lemma LabelLowerTwenties(text: string) returns (lower: string)
    requires text == "20-30"
    ensures lower == ToLower(text) && lower == "20-30"
  {
    lower := ToLower(text);
    assert lower == "20-30";
  }

  lemma LabelFixedPointThirties(text: string)
    requires text == "30-40"
    ensures CompatibleAgeRanges(text) == [text]
  {
    var lower := LabelLowerThirties(text);
    NoGroupBefore(lower, 3, [[0, 0, 0, 0], [0, 0, 0, 0, 0], [0, 0, 0]]);
    assert lower[..2] == "30";
    assert ContainsAny(lower, AgeKeywords[3]);
    AgeGroupSelectedVia(text, lower, 3);
  }

  lemma LabelLowerThirties(text: string) returns (lower: string)
    requires text == "30-40"
    ensures lower == ToLower(text) && lower == "30-40"
  {
    lower := ToLower(text);
    assert lower == "30-40";
  }

  lemma LabelFixedPointForties(text: string)
    requires text == "40-50"
    ensures CompatibleAgeRanges(text) == [text]
  {
    var lower := LabelLowerForties(text);
    NoGroupBefore(lower, 4, [[0, 0, 0, 2], [0, 0, 0, 0, 0], [0, 0, 0], [0, 0, 0]]);
    assert lower[..2] == "40";
    assert ContainsAny(lower, AgeKeywords[4]);
    AgeGroupSelectedVia(text, lower, 4);
  }

  lemma LabelLowerForties(text: string) returns (lower: string)
    requires text == "40-50"
    ensures lower == ToLower(text) && lower == "40-50"
  {
    lower := ToLower(text);
    assert lower == "40-50";
  }

  lemma LabelFixedPointFifties(text: string)
    requires text == "50-60"
    ensures CompatibleAgeRanges(text) == [text]
  {
    var lower := LabelLowerFifties(text);
    NoGroupBefore(lower, 5, [[0, 0, 0, 2], [0, 0, 0, 0, 0], [0, 0, 0], [0, 0, 0], [0, 0, 0]]);
    assert lower[..2] == "50";
    assert ContainsAny(lower, AgeKeywords[5]);
    AgeGroupSelectedVia(text, lower, 5);
  }

  lemma LabelLowerFifties(text: string) returns (lower: string)
    requires text == "50-60"
    ensures lower == ToLower(text) && lower == "50-60"
  {
    lower := ToLower(text);
    assert lower == "50-60";
  }

  lemma LabelFixedPointSixties(text: string)
    requires text == "60+"
    ensures CompatibleAgeRanges(text) == [text]
  {
    var lower := LabelLowerSixties(text);
    NoGroupBefore(lower, 6, [[0, 0, 0, 0], [0, 0, 0, 0, 0], [0, 0, 0], [0, 0, 0], [0, 0, 0], [0, 0, 0]]);
    assert lower[..2] == "60";
    assert ContainsAny(lower, AgeKeywords[6]);
    AgeGroupSelectedVia(text, lower, 6);
  }

  lemma LabelLowerSixties(text: string) returns (lower: string)
    requires text == "60+"
    ensures lower == ToLower(text) && lower == "60+"
  {
    lower := ToLower(text);
    assert lower == "60+";
  }

  /** Every canonical label normalises to exactly itself, so a talent's own
      label always satisfies a role that asks for that label. */
  lemma CanonicalLabelIsFixedPoint(canonical: string)
    requires canonical in MockData.AgeLabels
    ensures CompatibleAgeRanges(canonical) == [canonical]
  {
    if canonical == "Niño (5-10)" {
      LabelFixedPointChild(canonical);
    } else if canonical == "Adolescente (12-18)" {
      LabelFixedPointTeen(canonical);
    } else if canonical == "20-30" {
      LabelFixedPointTwenties(canonical);
    } else if canonical == "30-40" {
      LabelFixedPointThirties(canonical);
    } else if canonical == "40-50" {
      LabelFixedPointForties(canonical);
    } else if canonical == "50-60" {
      LabelFixedPointFifties(canonical);
    } else {
      LabelFixedPointSixties(canonical);
    }
  }
}
