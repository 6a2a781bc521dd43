/**
 * The talent side: the talent's own gender normaliser, the open castings
 * shown as opportunities with their per-role flags, and the profile editor
 * with its comma-separated list fields.
 */
module TalentView {
  import opened JsText
  import opened Seqs
  import opened Model
  import ClientView

  type Gender = ClientView.Gender

  // ---------------------------------------------------------------------
  // The talent's gender normaliser

  /** This view's female tokens: the client's list without "niña". */
  const FemaleTokens: seq<string> := ["fem", "mujer", "woman", "chica"]
  /** This view's male tokens: the client's list without "niño". */
  const MaleTokens: seq<string> := ["masc", "hombre", "man", "chico"]

  /** The talent view's own copy of the gender normaliser: the same ordered
      substring tests, without the child tokens. */
  function NormalizeGender(g: string): (r: Gender)
    ensures g == "" ==> r == ClientView.Any
    ensures g != "" ==>
      (r == ClientView.Female <==> exists k :: 0 <= k < |FemaleTokens| && Contains(ToLower(g), FemaleTokens[k]))
    ensures g != "" ==>
      (r == ClientView.Male <==>
        (forall k :: 0 <= k < |FemaleTokens| ==> !Contains(ToLower(g), FemaleTokens[k]))
        && exists k :: 0 <= k < |MaleTokens| && Contains(ToLower(g), MaleTokens[k]))
  {
    if g == "" then ClientView.Any
    else
      var lower := ToLower(g);
      assert FemaleTokens == [FemaleTokens[0], FemaleTokens[1], FemaleTokens[2], FemaleTokens[3]];
      assert MaleTokens == [MaleTokens[0], MaleTokens[1], MaleTokens[2], MaleTokens[3]];
      if Contains(lower, "fem") || Contains(lower, "mujer") || Contains(lower, "woman")
         || Contains(lower, "chica") then ClientView.Female
      else if Contains(lower, "masc") || Contains(lower, "hombre") || Contains(lower, "man")
         || Contains(lower, "chico") then ClientView.Male
      else ClientView.Any
  }

  /** The normaliser read as a table over the two token lists. */
  lemma GenderByTokens(g: string)
    ensures NormalizeGender(g) ==
      if g == "" then ClientView.Any
      else if ContainsAny(ToLower(g), FemaleTokens) then ClientView.Female
      else if ContainsAny(ToLower(g), MaleTokens) then ClientView.Male
      else ClientView.Any
  {
    ContainsAnyIff(ToLower(g), FemaleTokens);
    ContainsAnyIff(ToLower(g), MaleTokens);
  }

  /** The two normalisers agree on every text that mentions neither "niña"
      nor "niño". */
  lemma NormalisersAgree(g: string)
    requires !Contains(ToLower(g), "niña") && !Contains(ToLower(g), "niño")
    ensures NormalizeGender(g) == ClientView.NormalizeGender(g)
  {
    if g != "" {
      var lower := ToLower(g);
      GenderByTokens(g);
      ClientView.GenderByTokens(g);
      assert ClientView.FemaleTokens == FemaleTokens + ["niña"];
      assert ClientView.MaleTokens == MaleTokens + ["niño"];
      ContainsAnyConcat(lower, FemaleTokens, ["niña"]);
      ContainsAnyConcat(lower, MaleTokens, ["niño"]);
    }
  }

  /** "niña" is a girl's voice for the client but unmarked for the talent. */
  lemma NinaDisagrees()
    ensures NormalizeGender("niña") == ClientView.Any
    ensures ClientView.NormalizeGender("niña") == ClientView.Female
  {
    NinaLower();
    NinaTokens("niña");
    GenderByTokens("niña");
    ClientView.GenderByTokens("niña");
    assert ClientView.FemaleTokens[4] == "niña";
    ContainsEmptyPrefix("niña");
  }

  lemma NinaLower()
    ensures ToLower("niña") == "niña"
  {
  }

  lemma NinaTokens(lower: string)
    requires lower == "niña"
    ensures !ContainsAny(lower, FemaleTokens) && !ContainsAny(lower, MaleTokens)
  {
    ContainsNone(lower, FemaleTokens, [0, 0, 0, 0]);
    ContainsNone(lower, MaleTokens, [0, 0, 0, 0]);
  }

  lemma ContainsEmptyPrefix(s: string)
    ensures Contains(s, s)
  {
    assert s[..|s|] == s;
  }

  // ---------------------------------------------------------------------
  // Opportunities

  /** The castings a talent sees: the open ones, in their original order.
      A project is listed exactly when it is one of the projects and open. */
  function OpenProjects(projects: seq<CastingProject>): (r: seq<CastingProject>)
    ensures |r| <= |projects|
    ensures forall p :: p in r <==> p in projects && p.status == Open
  {
    var open := (p: CastingProject) => p.status == Open;
    assert forall p :: p in Filter(open, projects) <==> p in projects && p.status == Open by {
      forall p {
        FilterMember(open, projects, p);
      }
    }
    Filter(open, projects)
  }

  /** The opportunities of two lists in sequence are those of the first
      followed by those of the second: the original order is kept. */
  lemma OpenProjectsConcat(a: seq<CastingProject>, b: seq<CastingProject>)
    ensures OpenProjects(a + b) == OpenProjects(a) + OpenProjects(b)
  {
    FilterConcat((p: CastingProject) => p.status == Open, a, b);
  }

  /** A role is a match when it accepts any gender or the talent's own
      (as being edited); the age requirement is not consulted. */
  predicate RoleMatches(role: CastingRole, myGender: Gender)
    ensures role.gender == "" ==> RoleMatches(role, myGender)
    ensures myGender == ClientView.Any ==> (RoleMatches(role, myGender) <==> NormalizeGender(role.gender) == ClientView.Any)
  {
    NormalizeGender(role.gender) == ClientView.Any || NormalizeGender(role.gender) == myGender
  }

  /** The client picked this talent for the role. */
  predicate RoleSelected(role: CastingRole, talentId: string)
    ensures role.selectedTalentId == None ==> !RoleSelected(role, talentId)
    ensures RoleSelected(role, talentId) ==> forall other :: other != talentId ==> role.selectedTalentId != Some(other)
  {
    role.selectedTalentId == Some(talentId)
  }

  datatype Badge = Chosen | MatchBadge | NoBadge

  /** The badge a role card shows: selection wins over match. */
  function RoleBadge(role: CastingRole, myGender: Gender, talentId: string): (b: Badge)
    ensures b == Chosen <==> role.selectedTalentId == Some(talentId)
    ensures b == MatchBadge <==> role.selectedTalentId != Some(talentId) && RoleMatches(role, myGender)
  {
    if RoleSelected(role, talentId) then Chosen
    else if RoleMatches(role, myGender) then MatchBadge
    else NoBadge
  }

  /** A talent the client's matcher may suggest for a role sees that role
      as a match, as long as neither gender text names a child. */
  lemma SuggestedSeesMatch(role: CastingRole, t: TalentProfile)
    requires ClientView.NormalizeGender(role.gender) == ClientView.Any
      || ClientView.NormalizeGender(role.gender) == ClientView.NormalizeGender(t.gender)
    requires !Contains(ToLower(role.gender), "niña") && !Contains(ToLower(role.gender), "niño")
    requires !Contains(ToLower(t.gender), "niña") && !Contains(ToLower(t.gender), "niño")
    ensures RoleMatches(role, NormalizeGender(t.gender))
  {
    NormalisersAgree(role.gender);
    NormalisersAgree(t.gender);
  }

  // ---------------------------------------------------------------------
  // Comma-separated lists

  /** `value.split(',').map(s => s.trim())`. */
  function SplitList(value: string): (r: seq<string>)
    ensures |r| == |Split(value, ',')|
    ensures forall i :: 0 <= i < |r| ==> r[i] == Trim(Split(value, ',')[i])
  {
    var pieces := Split(value, ',');
    seq(|pieces|, i requires 0 <= i < |pieces| => Trim(pieces[i]))
  }

  /** One item per comma-separated piece, empty pieces included; each item
      is trimmed and free of commas. */
  lemma SplitListShape(value: string)
    ensures |SplitList(value)| == CountChar(value, ',') + 1
    ensures forall i :: 0 <= i < |SplitList(value)| ==>
      IsTrimmed(SplitList(value)[i]) && ',' !in SplitList(value)[i]
  {
    SplitCount(value, ',');
    SplitPiecesFree(value, ',');
    var pieces := Split(value, ',');
    forall i | 0 <= i < |pieces|
      ensures IsTrimmed(Trim(pieces[i])) && ',' !in Trim(pieces[i])
    {
      TrimShape(pieces[i]);
    }
  }

  /** An empty field gives one empty item, not an empty list. */
  lemma EmptyFieldGivesOneEmptyItem()
    ensures SplitList("") == [""]
  {
    assert Trim("") == "";
  }

  /** Each item with one space in front. */
  function Spaced(xs: seq<string>): (r: seq<string>)
    ensures |r| == |xs|
    ensures forall i :: 0 <= i < |xs| ==> r[i] == " " + xs[i]
  {
    seq(|xs|, i requires 0 <= i < |xs| => " " + xs[i])
  }

  lemma {:induction false} SpacedJoin(ys: seq<string>)
    requires |ys| >= 1
    ensures " " + Join(ys, ", ") == Join(Spaced(ys), ",")
  {
    if |ys| > 1 {
      SpacedJoin(ys[1..]);
      assert Spaced(ys)[1..] == Spaced(ys[1..]);
      assert " " + Join(ys, ", ") == (" " + ys[0]) + "," + (" " + Join(ys[1..], ", "));
    }
  }

  /** The display `join(', ')` of a list becomes `,`-joined pieces, all but
      the first with a leading space. */
  lemma {:induction false} CommaSpaceJoin(xs: seq<string>)
    requires |xs| >= 1
    ensures Join(xs, ", ") == Join(DisplayPieces(xs), ",")
  {
    var ys := DisplayPieces(xs);
    if |xs| > 1 {
      assert ys[1..] == Spaced(xs[1..]);
      var tail := Join(xs[1..], ", ");
      calc {
        Join(ys, ",");
        ys[0] + "," + Join(ys[1..], ",");
        xs[0] + "," + Join(Spaced(xs[1..]), ",");
        { SpacedJoin(xs[1..]); }
        xs[0] + "," + (" " + tail);
        { assert "," + " " == ", "; }
        xs[0] + ", " + tail;
      }
    }
  }

  /** The pieces `split(',')` finds in a displayed list. */
  function DisplayPieces(xs: seq<string>): (r: seq<string>)
    requires |xs| >= 1
    ensures |r| == |xs| && r[0] == xs[0]
    ensures forall i :: 1 <= i < |xs| ==> r[i] == " " + xs[i]
  {
    [xs[0]] + Spaced(xs[1..])
  }

  /** Reading a displayed list back splits it into its display pieces. */
  lemma SplitDisplayed(xs: seq<string>)
    requires |xs| >= 1
    requires forall i :: 0 <= i < |xs| ==> ',' !in xs[i]
    ensures Split(Join(xs, ", "), ',') == DisplayPieces(xs)
  {
    var pieces := DisplayPieces(xs);
    CommaSpaceJoin(xs);
    forall k | 0 <= k < |pieces|
      ensures ',' !in pieces[k]
    {
      if k > 0 {
        assert pieces[k] == " " + xs[k];
      }
    }
    SplitJoin(pieces, ',');
  }

  /** A non-empty list of trimmed, comma-free items survives being shown as
      `join(', ')` and read back by the list editor. */
  lemma SplitListJoin(xs: seq<string>)
    requires |xs| >= 1
    requires forall i :: 0 <= i < |xs| ==> IsTrimmed(xs[i]) && ',' !in xs[i]
    ensures SplitList(Join(xs, ", ")) == xs
  {
    SplitDisplayed(xs);
    var pieces := DisplayPieces(xs);
    var r := SplitList(Join(xs, ", "));
    assert |r| == |xs|;
    forall i | 0 <= i < |xs|
      ensures r[i] == xs[i]
    {
      assert r[i] == Trim(pieces[i]);
      if i == 0 {
        TrimTrimmed(xs[0]);
      } else {
        TrimLeadingSpace(xs[i]);
      }
    }
  }

  // ---------------------------------------------------------------------
  // The profile form

  /** The text fields the form edits. */
  datatype TextField = Name | AgeRange | Description
  /** The list fields the form edits as comma-separated text. */
  datatype ListField = RegularBrands | PastBrands | DubbingActors

  /** One `handleInputChange` call: a field and its new value. */
  datatype Edit = TextEdit(textField: TextField, text: string) | ListEdit(listField: ListField, items: seq<string>)

  function TextOf(p: TalentProfile, f: TextField): string
  {
    match f
    case Name => p.name
    case AgeRange => p.ageRange
    case Description => p.description
  }

  function ListOf(p: TalentProfile, f: ListField): seq<string>
  {
    match f
    case RegularBrands => p.regularBrands
    case PastBrands => p.pastBrands
    case DubbingActors => p.dubbingActors
  }

  /** The profile with every editable field blanked: what no edit touches. */
  function Frozen(p: TalentProfile): TalentProfile
  {
    p.(name := "", ageRange := "", description := "", regularBrands := [], pastBrands := [], dubbingActors := [])
  }

  /** The profile with one field replaced. */
  function ApplyEdit(p: TalentProfile, e: Edit): (q: TalentProfile)
    ensures Frozen(q) == Frozen(p)
    ensures e.TextEdit? ==> TextOf(q, e.textField) == e.text
    ensures e.ListEdit? ==> ListOf(q, e.listField) == e.items
    ensures forall f :: !(e.TextEdit? && e.textField == f) ==> TextOf(q, f) == TextOf(p, f)
    ensures forall f :: !(e.ListEdit? && e.listField == f) ==> ListOf(q, f) == ListOf(p, f)
  {
    match e
    case TextEdit(Name, s) => p.(name := s)
    case TextEdit(AgeRange, s) => p.(ageRange := s)
    case TextEdit(Description, s) => p.(description := s)
    case ListEdit(RegularBrands, xs) => p.(regularBrands := xs)
    case ListEdit(PastBrands, xs) => p.(pastBrands := xs)
    case ListEdit(DubbingActors, xs) => p.(dubbingActors := xs)
  }

  /** Two profiles agreeing on every editable field and on the rest are
      equal. */
  lemma FieldsDetermineProfile(p: TalentProfile, q: TalentProfile)
    requires Frozen(p) == Frozen(q)
    requires forall f :: TextOf(p, f) == TextOf(q, f)
    requires forall f :: ListOf(p, f) == ListOf(q, f)
    ensures p == q
  {
    assert TextOf(p, Name) == TextOf(q, Name);
    assert TextOf(p, AgeRange) == TextOf(q, AgeRange);
    assert TextOf(p, Description) == TextOf(q, Description);
    assert ListOf(p, RegularBrands) == ListOf(q, RegularBrands);
    assert ListOf(p, PastBrands) == ListOf(q, PastBrands);
    assert ListOf(p, DubbingActors) == ListOf(q, DubbingActors);
  }

  /** Writing a field's current value back changes nothing. */
  lemma EditCurrentValue(p: TalentProfile, f: TextField)
    ensures ApplyEdit(p, TextEdit(f, TextOf(p, f))) == p
  {
    FieldsDetermineProfile(ApplyEdit(p, TextEdit(f, TextOf(p, f))), p);
  }

  /** Of two edits to the same field the later wins. */
  lemma LaterEditWins(p: TalentProfile, f: TextField, s: string, t: string)
    ensures ApplyEdit(ApplyEdit(p, TextEdit(f, s)), TextEdit(f, t)) == ApplyEdit(p, TextEdit(f, t))
  {
    FieldsDetermineProfile(ApplyEdit(ApplyEdit(p, TextEdit(f, s)), TextEdit(f, t)), ApplyEdit(p, TextEdit(f, t)));
  }

  /** Edits to different fields commute. */
  lemma EditsCommute(p: TalentProfile, d: Edit, e: Edit)
    requires !(d.TextEdit? && e.TextEdit? && d.textField == e.textField)
    requires !(d.ListEdit? && e.ListEdit? && d.listField == e.listField)
    ensures ApplyEdit(ApplyEdit(p, d), e) == ApplyEdit(ApplyEdit(p, e), d)
  {
    FieldsDetermineProfile(ApplyEdit(ApplyEdit(p, d), e), ApplyEdit(ApplyEdit(p, e), d));
  }

  /** The profile form: the working copy and whether it is open for editing. */
  class ProfileEditor {
    var isEditing: bool
    var formData: TalentProfile

    /** The form starts closed, holding the talent's profile. */
    constructor (talent: TalentProfile)
      ensures !isEditing && formData == talent
    {
      isEditing := false;
      formData := talent;
    }

    /** The "edit" button. */
    method StartEditing()
      modifies this
      ensures isEditing && formData == old(formData)
    {
      isEditing := true;
    }

    /** The "cancel" button closes the form; the working copy keeps the
        edits made so far. */
    method CancelEditing()
      modifies this
      ensures !isEditing && formData == old(formData)
    {
      isEditing := false;
    }

    /** `handleInputChange`: replaces one field of the working copy. */
    method HandleInputChange(e: Edit)
      modifies this
      ensures formData == ApplyEdit(old(formData), e)
      ensures isEditing == old(isEditing)
    {
      formData := ApplyEdit(formData, e);
    }

    /** `handleArrayInput`: splits the typed text on commas, trims each
        piece and stores the list in the field. */
    method HandleArrayInput(f: ListField, value: string)
      modifies this
      ensures formData == ApplyEdit(old(formData), ListEdit(f, SplitList(value)))
      ensures isEditing == old(isEditing)
    {
      HandleInputChange(ListEdit(f, SplitList(value)));
    }

    /** `handleSave`: hands the working copy to the update callback (the
        result) and closes the form. */
    method HandleSave() returns (updated: TalentProfile)
      modifies this
      ensures updated == old(formData) && formData == old(formData)
      ensures !isEditing
    {
      updated := formData;
      isEditing := false;
    }
  }

  /** Re-entering a list field exactly as displayed leaves the profile as it
      was, when every item is trimmed and comma-free. */
  method RetypeListField(editor: ProfileEditor, f: ListField)
    requires |ListOf(editor.formData, f)| >= 1
    requires forall i :: 0 <= i < |ListOf(editor.formData, f)| ==>
      IsTrimmed(ListOf(editor.formData, f)[i]) && ',' !in ListOf(editor.formData, f)[i]
    modifies editor
    ensures editor.formData == old(editor.formData) && editor.isEditing == old(editor.isEditing)
  {
    ghost var before := editor.formData;
    editor.HandleArrayInput(f, Join(ListOf(editor.formData, f), ", "));
    SplitListJoin(ListOf(before, f));
    FieldsDetermineProfile(editor.formData, before);
  }
}
