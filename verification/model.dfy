/**
 * The application's records: users, talent profiles, casting roles and
 * casting projects, as declared in types.ts. Optional properties become
 * `Option`; the project status is the closed four-value enumeration.
 */
module Model {

  datatype Option<T> = None | Some(value: T)

  datatype UserRole = Manager | Client | Talent

  datatype User = User(id: string, name: string, email: string, role: UserRole, avatarUrl: Option<string>)

  datatype Demo = Demo(title: string, url: string, tags: seq<string>)

  /** A voice talent; the fields of `User` are repeated because the profile
      extends it. The rating is a display value and is never computed with. */
  datatype TalentProfile = TalentProfile(
    id: string,
    name: string,
    email: string,
    role: UserRole,
    avatarUrl: Option<string>,
    demos: seq<Demo>,
    languages: seq<string>,
    gender: string,
    ageRange: string,
    regularBrands: seq<string>,
    pastBrands: seq<string>,
    dubbingActors: seq<string>,
    description: string,
    rating: real)

  /** A role without its id: what the brief generator returns and what the
      matcher reads (`Omit<CastingRole, 'id'>`). */
  datatype RoleSpec = RoleSpec(name: string, description: string, gender: string, ageRange: string, voiceType: string)

  datatype CastingRole = CastingRole(
    id: string,
    name: string,
    description: string,
    gender: string,
    ageRange: string,
    voiceType: string,
    suggestedTalentIds: Option<seq<string>>,
    selectedTalentId: Option<string>)
  {
    /** The role seen without its id. */
    function Spec(): RoleSpec
    {
      RoleSpec(name, description, gender, ageRange, voiceType)
    }
  }

  datatype Status = Draft | Open | Review | Completed

  datatype CastingProject = CastingProject(
    id: string,
    title: string,
    clientId: string,
    clientName: string,
    brand: Option<string>,
    status: Status,
    createdAt: string,
    description: string,
    roles: seq<CastingRole>)

  datatype Stats = Stats(totalTalents: nat, activeCastings: nat, completedCastings: nat, totalClients: nat, revenue: nat)
}
