/**
 * The application shell: the in-memory registry of projects and talents,
 * the dashboard figures derived from it, and the login state.
 */
module App {
  import opened Seqs
  import opened Model
  import MockData
  import TalentView
  import ClientWizard

  // ---------------------------------------------------------------------
  // Dashboard figures

  /** The projects of one status. */
  function WithStatus(s: Status): CastingProject -> bool
  {
    (p: CastingProject) => p.status == s
  }

  /** How many projects have status `s`. */
  function CountStatus(projects: seq<CastingProject>, s: Status): nat
  {
    |Filter(WithStatus(s), projects)|
  }

  /** Clients and revenue are fixed figures, not derived from the data. */
  const TotalClients: nat := 15
  const Revenue: nat := 45200

  /** The figures the dashboard shows: the talent count, the open and the
      completed castings, and the two fixed figures. Active and completed
      castings never outnumber the projects. */
  function DeriveStats(projects: seq<CastingProject>, talents: seq<TalentProfile>): (r: Stats)
    ensures r.totalTalents == |talents|
    ensures r.activeCastings + r.completedCastings <= |projects|
    ensures r.totalClients == TotalClients && r.revenue == Revenue
  {
    StatusCountsPartition(projects);
    Stats(|talents|, CountStatus(projects, Open), CountStatus(projects, Completed), TotalClients, Revenue)
  }

  /** Counting over a prepended project counts it once, when it has the
      status. */
  lemma CountStatusPrepend(p: CastingProject, projects: seq<CastingProject>, s: Status)
    ensures CountStatus([p] + projects, s) == CountStatus(projects, s) + (if p.status == s then 1 else 0)
  {
    FilterConcat(WithStatus(s), [p], projects);
    assert Filter(WithStatus(s), [p]) == (if p.status == s then [p] else []) + Filter(WithStatus(s), []);
  }

  /** Every project has exactly one of the four statuses, so the four
      counts add up to the number of projects. */
  lemma {:induction false} StatusCountsPartition(projects: seq<CastingProject>)
    ensures CountStatus(projects, Draft) + CountStatus(projects, Open)
      + CountStatus(projects, Review) + CountStatus(projects, Completed) == |projects|
  {
    if projects != [] {
      StatusCountsPartition(projects[1..]);
      assert projects == [projects[0]] + projects[1..];
      CountStatusPrepend(projects[0], projects[1..], Draft);
      CountStatusPrepend(projects[0], projects[1..], Open);
      CountStatusPrepend(projects[0], projects[1..], Review);
      CountStatusPrepend(projects[0], projects[1..], Completed);
    }
  }

  /** The active castings are exactly the talents' opportunities. */
  lemma ActiveAreOpportunities(projects: seq<CastingProject>, talents: seq<TalentProfile>)
    ensures DeriveStats(projects, talents).activeCastings == |TalentView.OpenProjects(projects)|
  {
    assert TalentView.OpenProjects(projects) == Filter(WithStatus(Open), projects);
  }

  /** The seeded projects: two open, one completed. */
  lemma MockStats(talents: seq<TalentProfile>)
    ensures DeriveStats(MockData.MockProjects, talents) == Stats(|talents|, 2, 1, 15, 45200)
  {
    var ps := MockData.MockProjects;
    assert ps == [ps[0]] + ([ps[1]] + ([ps[2]] + []));
    assert ps[0].status == Open && ps[1].status == Completed && ps[2].status == Open;
    CountStatusPrepend(ps[2], [], Open);
    CountStatusPrepend(ps[1], [ps[2]], Open);
    CountStatusPrepend(ps[0], [ps[1], ps[2]], Open);
    CountStatusPrepend(ps[2], [], Completed);
    CountStatusPrepend(ps[1], [ps[2]], Completed);
    CountStatusPrepend(ps[0], [ps[1], ps[2]], Completed);
  }

  // ---------------------------------------------------------------------
  // Talent registry

  /** Every talent with the updated profile's id is replaced by it; the
      others stay where they are. */
  function ReplaceById(talents: seq<TalentProfile>, updated: TalentProfile): (r: seq<TalentProfile>)
    ensures |r| == |talents|
    ensures forall i :: 0 <= i < |r| ==> r[i] == if talents[i].id == updated.id then updated else talents[i]
  {
    seq(|talents|, i requires 0 <= i < |talents| => if talents[i].id == updated.id then updated else talents[i])
  }

  /** After the update, the profile with that id is the updated one, and
      it is present exactly when the id was. */
  lemma ReplaceFindsUpdated(talents: seq<TalentProfile>, updated: TalentProfile)
    ensures forall t :: t in ReplaceById(talents, updated) && t.id == updated.id ==> t == updated
    ensures updated in ReplaceById(talents, updated) <==> exists i :: 0 <= i < |talents| && talents[i].id == updated.id
  {
    var r := ReplaceById(talents, updated);
    if updated in r {
      var i :| 0 <= i < |r| && r[i] == updated;
      assert talents[i].id == updated.id;
    }
  }

  /** Updating with an id nobody has changes nothing. */
  lemma ReplaceUnknownId(talents: seq<TalentProfile>, updated: TalentProfile)
    requires forall i :: 0 <= i < |talents| ==> talents[i].id != updated.id
    ensures ReplaceById(talents, updated) == talents
  {
  }

  /** Saving the same profile twice is saving it once. */
  lemma ReplaceIdempotent(talents: seq<TalentProfile>, updated: TalentProfile)
    ensures ReplaceById(ReplaceById(talents, updated), updated) == ReplaceById(talents, updated)
  {
  }

  // ---------------------------------------------------------------------
  // Session and registry state

  /** Whoever is logged in: a staff user or a talent profile. */
  datatype Account = Staff(user: User) | TalentAccount(profile: TalentProfile)
  {
    function Id(): string
    {
      match this
      case Staff(u) => u.id
      case TalentAccount(t) => t.id
    }
  }

  /** The demo accounts share id and e-mail; only name and role differ. */
  function DemoUser(name: string, role: UserRole): User
  {
    User("u1", name, "admin@vocescast.com", role, None)
  }

  class AppState {
    var currentUser: Option<Account>
    var currentView: string
    var projects: seq<CastingProject>
    var talents: seq<TalentProfile>

    /** Nobody logged in, on the dashboard, with the seeded projects and the
        given talent pool; the dashboard then shows two active and one
        completed casting. */
    constructor (seedTalents: seq<TalentProfile>)
      ensures currentUser == None && currentView == "dashboard"
      ensures projects == MockData.MockProjects && talents == seedTalents
      ensures Stats() == Model.Stats(|seedTalents|, 2, 1, 15, 45200)
    {
      currentUser := None;
      currentView := "dashboard";
      projects := MockData.MockProjects;
      talents := seedTalents;
      new;
      MockStats(seedTalents);
    }

    /** The dashboard figures for the current data. */
    function Stats(): Stats
      reads this
    {
      DeriveStats(projects, talents)
    }

    /** `handleLogin`: a talent logs in as the first profile of the pool
        (nobody, when the pool is empty) and sees the profile; a client logs
        in as the agency and sees its castings; a manager sees the
        dashboard. The data is untouched. */
    method HandleLogin(role: UserRole)
      modifies this
      ensures role == Talent ==>
        && currentUser == (if |talents| > 0 then Some(TalentAccount(talents[0])) else None)
        && currentView == "profile"
      ensures role == Client ==>
        currentUser == Some(Staff(DemoUser("Agencia 360", Client))) && currentView == "my-castings"
      ensures role == Manager ==>
        currentUser == Some(Staff(DemoUser("Admin User", Manager))) && currentView == "dashboard"
      ensures projects == old(projects) && talents == old(talents)
    {
      match role
      case Talent =>
        currentUser := if |talents| > 0 then Some(TalentAccount(talents[0])) else None;
        currentView := "profile";
      case Client =>
        currentUser := Some(Staff(DemoUser("Agencia 360", Client)));
        currentView := "my-castings";
      case Manager =>
        currentUser := Some(Staff(DemoUser("Admin User", Manager)));
        currentView := "dashboard";
    }

    /** `handleLogout`: nobody logged in, back on the dashboard. */
    method HandleLogout()
      modifies this
      ensures currentUser == None && currentView == "dashboard"
      ensures projects == old(projects) && talents == old(talents)
    {
      currentUser := None;
      currentView := "dashboard";
    }

    /** `handleCreateProject`: the new project goes first. */
    method HandleCreateProject(project: CastingProject)
      modifies this
      ensures projects == [project] + old(projects)
      ensures talents == old(talents)
      ensures currentUser == old(currentUser) && currentView == old(currentView)
    {
      projects := [project] + projects;
    }

    /** `handleUpdateTalent`: replaces the profile by id, and when the
        logged-in account has that id it becomes the updated profile. */
    method HandleUpdateTalent(updated: TalentProfile)
      modifies this
      ensures talents == ReplaceById(old(talents), updated)
      ensures old(currentUser).Some? && old(currentUser).value.Id() == updated.id ==>
        currentUser == Some(TalentAccount(updated))
      ensures !(old(currentUser).Some? && old(currentUser).value.Id() == updated.id) ==>
        currentUser == old(currentUser)
      ensures projects == old(projects) && currentView == old(currentView)
    {
      talents := ReplaceById(talents, updated);
      if currentUser.Some? && currentUser.value.Id() == updated.id {
        currentUser := Some(TalentAccount(updated));
      }
    }
  }

  /** A published project heads the talents' opportunities. */
  lemma PublishedLeadsOpportunities(p: CastingProject, projects: seq<CastingProject>)
    requires p.status == Open
    ensures TalentView.OpenProjects([p] + projects) == [p] + TalentView.OpenProjects(projects)
  {
    FilterConcat((q: CastingProject) => q.status == Open, [p], projects);
    assert Filter((q: CastingProject) => q.status == Open, [p]) == [p] + Filter((q: CastingProject) => q.status == Open, []);
  }

  /** Publishing from the wizard: the confirmed project is prepended to the
      registry, becomes the first opportunity talents see, and adds one
      active casting. */
  method PublishCasting(app: AppState, wizard: ClientWizard.Wizard, id: string, createdAt: string)
    returns (project: CastingProject)
    modifies app, wizard
    ensures project.id == id && project.createdAt == createdAt && project.status == Open
    ensures project.title == old(wizard.generatedTitle) && project.description == old(wizard.prompt)
    ensures project.brand == Some(old(wizard.brandName))
    ensures project.roles == ClientWizard.ConfirmedRoles(old(wizard.generatedRoles), old(wizard.selectedCandidates))
    ensures app.projects == [project] + old(app.projects)
    ensures TalentView.OpenProjects(app.projects) == [project] + TalentView.OpenProjects(old(app.projects))
    ensures app.Stats().activeCastings == old(app.Stats().activeCastings) + 1
    ensures project.clientId == "current-client" && project.clientName == "Mi Agencia"
    ensures wizard.step == ClientWizard.Success
    ensures wizard.prompt == old(wizard.prompt) && wizard.brandName == old(wizard.brandName)
    ensures wizard.campaignName == old(wizard.campaignName)
    ensures wizard.generatedRoles == old(wizard.generatedRoles) && wizard.generatedTitle == old(wizard.generatedTitle)
    ensures wizard.selectedCandidates == old(wizard.selectedCandidates)
    ensures app.talents == old(app.talents) && app.currentUser == old(app.currentUser)
    ensures app.currentView == old(app.currentView)
  {
    project := wizard.HandleConfirmProject(id, createdAt);
    app.HandleCreateProject(project);
    PublishedLeadsOpportunities(project, old(app.projects));
    CountStatusPrepend(project, old(app.projects), Open);
  }

  /** A talent saving their own profile: the registry and the session both
      hold the saved profile. */
  method SaveOwnProfile(app: AppState, editor: TalentView.ProfileEditor)
    requires app.currentUser.Some? && app.currentUser.value.Id() == editor.formData.id
    modifies app, editor
    ensures app.currentUser == Some(TalentAccount(old(editor.formData)))
    ensures app.talents == ReplaceById(old(app.talents), old(editor.formData))
    ensures !editor.isEditing && editor.formData == old(editor.formData)
    ensures app.projects == old(app.projects) && app.currentView == old(app.currentView)
  {
    var updated := editor.HandleSave();
    app.HandleUpdateTalent(updated);
  }
}
