/**
 * The casting wizard of the client view: the client writes a brief, the
 * brief generator proposes roles and a title (review), the client picks one
 * candidate per role and publishes the project (success).
 */
module ClientWizard {
  import opened JsText
  import opened Model

  datatype Step = Input | Review | Success

  /** What the brief generator answers: the roles it found and a title. */
  datatype Analysis = Analysis(roles: seq<RoleSpec>, title: string)

  /** The text sent to the brief generator: brand, campaign and brief, with
      the brief verbatim at the end. */
  function BriefRequest(brandName: string, campaignName: string, prompt: string): (r: string)
    ensures Contains(r, brandName) && Contains(r, campaignName)
    ensures |prompt| <= |r| && r[|r| - |prompt|..] == prompt
  {
    var r := "Marca: " + brandName + ". Campaña: " + campaignName + ". Descripción: " + prompt;
    var campaignAt := |"Marca: " + brandName + ". Campaña: "|;
    assert r[7..7 + |brandName|] == brandName;
    assert r[campaignAt..campaignAt + |campaignName|] == campaignName;
    ContainsAt(r, brandName, 7);
    ContainsAt(r, campaignName, campaignAt);
    r
  }

  /** The project title: the campaign name the client typed, unless it is
      blank, in which case the generator's suggestion. A campaign name with
      a visible character is the title verbatim, surrounding spaces
      included; one made only of whitespace never is. */
  function ChosenTitle(campaignName: string, suggested: string): (r: string)
    ensures (exists k :: 0 <= k < |campaignName| && !IsWhitespace(campaignName[k])) ==> r == campaignName
    ensures (forall k :: 0 <= k < |campaignName| ==> IsWhitespace(campaignName[k])) ==> r == suggested
  {
    TrimBlank(campaignName);
    if Trim(campaignName) != [] then campaignName else suggested
  }

  /** The talent chosen for role `i`: a missing or empty selection is none. */
  function SelectionFor(selected: map<nat, string>, i: nat): (r: Option<string>)
    ensures r.Some? <==> i in selected && selected[i] != ""
    ensures r.Some? ==> r.value == selected[i]
  {
    if i in selected && selected[i] != "" then Some(selected[i]) else None
  }

  /** The id the `i`-th published role gets. */
  function ConfirmedRoleId(i: nat): string
  {
    "new-r-" + Decimal(i)
  }

  /** The published roles: one per generated role, in order, each keeping
      the generated fields, numbered, and carrying its selection. */
  function ConfirmedRoles(roles: seq<RoleSpec>, selected: map<nat, string>): (r: seq<CastingRole>)
    ensures |r| == |roles|
    ensures forall i :: 0 <= i < |r| ==>
      && r[i].Spec() == roles[i]
      && r[i].id == ConfirmedRoleId(i)
      && r[i].suggestedTalentIds == None
      && r[i].selectedTalentId == SelectionFor(selected, i)
  {
    seq(|roles|, i requires 0 <= i < |roles| =>
      CastingRole(ConfirmedRoleId(i), roles[i].name, roles[i].description, roles[i].gender,
        roles[i].ageRange, roles[i].voiceType, None, SelectionFor(selected, i)))
  }

  /** Distinct positions get distinct role ids. */
  lemma ConfirmedRoleIdsDistinct(i: nat, j: nat)
    requires ConfirmedRoleId(i) == ConfirmedRoleId(j)
    ensures i == j
  {
    var prefix := "new-r-";
    assert Decimal(i) == ConfirmedRoleId(i)[|prefix|..];
    assert Decimal(j) == ConfirmedRoleId(j)[|prefix|..];
    DecimalInjective(i, j);
  }

  /** Selecting talent `id` for role `i` shows it as selected there, makes
      it the published role's talent when `id` is not empty, and leaves
      every other role as it was. */
  lemma SelectThenConfirm(roles: seq<RoleSpec>, selected: map<nat, string>, i: nat, id: string)
    requires i < |roles|
    ensures var after := ConfirmedRoles(roles, selected[i := id]);
      && (id != "" ==> after[i].selectedTalentId == Some(id))
      && (id == "" ==> after[i].selectedTalentId == None)
      && forall j :: 0 <= j < |roles| && j != i ==> after[j] == ConfirmedRoles(roles, selected)[j]
  {
    var before, after := ConfirmedRoles(roles, selected), ConfirmedRoles(roles, selected[i := id]);
    forall j | 0 <= j < |roles| && j != i
      ensures after[j] == before[j]
    {
      assert SelectionFor(selected[i := id], j) == SelectionFor(selected, j);
    }
  }

  /** The wizard's state. */
  class Wizard {
    var prompt: string
    var brandName: string
    var campaignName: string
    var generatedRoles: seq<RoleSpec>
    var generatedTitle: string
    var step: Step
    /** Chosen talent id per role index. */
    var selectedCandidates: map<nat, string>

    /** An empty brief at the input step. */
    constructor ()
      ensures prompt == "" && brandName == "" && campaignName == ""
      ensures generatedRoles == [] && generatedTitle == ""
      ensures step == Input && selectedCandidates == map[]
    {
      prompt, brandName, campaignName := "", "", "";
      generatedRoles, generatedTitle := [], "";
      step, selectedCandidates := Input, map[];
    }

    /** The three brief fields as the client types them. */
    method EditBrief(brand: string, campaign: string, brief: string)
      modifies this
      ensures brandName == brand && campaignName == campaign && prompt == brief
      ensures generatedRoles == old(generatedRoles) && generatedTitle == old(generatedTitle)
      ensures step == old(step) && selectedCandidates == old(selectedCandidates)
    {
      brandName, campaignName, prompt := brand, campaign, brief;
    }

    /** `handleAnalyze`: a blank brief sends nothing and changes nothing.
        Otherwise the request is sent; `response` is the generator's answer,
        `None` when it failed, which changes nothing either. A successful
        answer replaces the roles wholesale, picks the title, clears the
        selections and moves to review. */
    method HandleAnalyze(response: Option<Analysis>) returns (request: Option<string>)
      modifies this
      ensures Trim(old(prompt)) == [] <==> request == None
      ensures request.Some? ==> request.value == BriefRequest(old(brandName), old(campaignName), old(prompt))
      ensures prompt == old(prompt) && brandName == old(brandName) && campaignName == old(campaignName)
      ensures request == None || response == None ==>
        && generatedRoles == old(generatedRoles) && generatedTitle == old(generatedTitle)
        && step == old(step) && selectedCandidates == old(selectedCandidates)
      ensures request.Some? && response.Some? ==>
        && generatedRoles == response.value.roles
        && generatedTitle == ChosenTitle(campaignName, response.value.title)
        && step == Step.Review
        && selectedCandidates == map[]
    {
      var trimmed := Trim(prompt);
      if trimmed == [] {
        request := None;
      } else {
        request := Some(BriefRequest(brandName, campaignName, prompt));
        if response.Some? {
          ApplyAnalysis(response.value.roles, ChosenTitle(campaignName, response.value.title));
        }
      }
    }

    /** A successful answer of the brief generator: its roles replace the
        old ones, the chosen title is stored, the selections are cleared and
        the wizard moves to review. */
    method ApplyAnalysis(roles: seq<RoleSpec>, title: string)
      modifies this
      ensures generatedRoles == roles && generatedTitle == title
      ensures step == Step.Review && selectedCandidates == map[]
      ensures prompt == old(prompt) && brandName == old(brandName) && campaignName == old(campaignName)
    {
      generatedRoles, generatedTitle := roles, title;
      step, selectedCandidates := Step.Review, map[];
    }

    /** `handleSelectCandidate`: records the talent for one role index and
        keeps every other selection. */
    method HandleSelectCandidate(roleIndex: nat, talentId: string)
      modifies this
      ensures selectedCandidates == old(selectedCandidates)[roleIndex := talentId]
      ensures IsCandidateSelected(roleIndex, talentId)
      ensures forall other :: other != talentId ==> !IsCandidateSelected(roleIndex, other)
      ensures forall i :: i in old(selectedCandidates) && i != roleIndex ==>
        i in selectedCandidates && selectedCandidates[i] == old(selectedCandidates)[i]
      ensures prompt == old(prompt) && brandName == old(brandName) && campaignName == old(campaignName)
      ensures generatedRoles == old(generatedRoles) && generatedTitle == old(generatedTitle)
      ensures step == old(step)
    {
      selectedCandidates := selectedCandidates[roleIndex := talentId];
    }

    /** Whether the candidate card for `talentId` under role `roleIndex`
        shows as chosen. */
    predicate IsCandidateSelected(roleIndex: nat, talentId: string)
      reads this
      ensures IsCandidateSelected(roleIndex, talentId) && talentId != "" ==>
        SelectionFor(selectedCandidates, roleIndex) == Some(talentId)
      ensures roleIndex !in selectedCandidates ==> !IsCandidateSelected(roleIndex, talentId)
    {
      roleIndex in selectedCandidates && selectedCandidates[roleIndex] == talentId
    }

    /** `handleConfirmProject`: builds the open project from the reviewed
        roles and moves to success. `id` and `createdAt` are the clock
        readings the source takes. */
    method HandleConfirmProject(id: string, createdAt: string) returns (project: CastingProject)
      modifies this
      ensures project.id == id && project.createdAt == createdAt
      ensures project.title == generatedTitle && project.description == prompt
      ensures project.clientId == "current-client" && project.clientName == "Mi Agencia"
      ensures project.brand == Some(brandName)
      ensures project.status == Open
      ensures project.roles == ConfirmedRoles(generatedRoles, selectedCandidates)
      ensures step == Success
      ensures prompt == old(prompt) && brandName == old(brandName) && campaignName == old(campaignName)
      ensures generatedRoles == old(generatedRoles) && generatedTitle == old(generatedTitle)
      ensures selectedCandidates == old(selectedCandidates)
    {
      project := CastingProject(id, generatedTitle, "current-client", "Mi Agencia", Some(brandName),
        Open, createdAt, prompt, ConfirmedRoles(generatedRoles, selectedCandidates));
      step := Success;
    }

    /** The review step's back button: returns to the brief, keeping
        everything else. */
    method BackToEdit()
      modifies this
      ensures step == Input
      ensures prompt == old(prompt) && brandName == old(brandName) && campaignName == old(campaignName)
      ensures generatedRoles == old(generatedRoles) && generatedTitle == old(generatedTitle)
      ensures selectedCandidates == old(selectedCandidates)
    {
      step := Input;
    }

    /** The success step's "create another" button: back to an empty brief;
        the generated roles, title and selections are left as they were. */
    method StartOver()
      modifies this
      ensures step == Input
      ensures prompt == "" && brandName == "" && campaignName == ""
      ensures generatedRoles == old(generatedRoles) && generatedTitle == old(generatedTitle)
      ensures selectedCandidates == old(selectedCandidates)
    {
      step := Input;
      prompt, campaignName, brandName := "", "", "";
    }
  }

  /** Right after starting over, analysing sends nothing: the brief is
      empty. */
  method StartOverThenAnalyze(w: Wizard, response: Option<Analysis>) returns (request: Option<string>)
    modifies w
    ensures request == None
    ensures w.step == Input
    ensures w.prompt == "" && w.brandName == "" && w.campaignName == ""
    ensures w.generatedRoles == old(w.generatedRoles) && w.generatedTitle == old(w.generatedTitle)
    ensures w.selectedCandidates == old(w.selectedCandidates)
  {
    w.StartOver();
    assert Trim(w.prompt) == [];
    request := w.HandleAnalyze(response);
  }
}
