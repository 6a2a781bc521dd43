# VocesCast matching engine and casting state, in Dafny

VocesCast is a voice-over casting platform. Clients describe a campaign, a
brief generator turns the description into roles, and the platform suggests
voice talents for each role. Talents see the open castings and edit their
profile. Managers see dashboard figures.

This project models the client-side logic and proves properties of it:

- **Matching engine.** This covers the two free-text normalisers (gender, and
  age to canonical labels), the strict eligibility filter, and the stable
  ranking on a 0/1 voice-type score. It also covers the cap of ten
  suggestions.
- **Casting wizard.** The steps are input → review → success. The model
  covers candidate selection per role and assembly of the published project.
- **Talent view.** This covers the view's own gender normaliser, the
  "open castings" list with its per-role Match and Selected flags, and the
  profile form with its comma-separated list fields.
- **Application shell.** This covers the in-memory registry (prepend a
  project, replace a talent by id), the derived dashboard figures and the
  login/logout state.
- **Fixtures.** The seven canonical age labels and the three fixed seeded
  projects are modelled as constants.

Modules:

- `JsText` holds the JavaScript string built-ins the code relies on:
  - `toLowerCase` and `includes`;
  - `split` on one character, and `join`;
  - `trim`;
  - decimal rendering of a number.
- `Seqs` holds `filter` and `slice(0, n)`. It also models the result of a
  stable `sort` whose comparator only separates a 0/1 key, which is a
  stable partition.
- `Model` holds the records of `types.ts`.
- `MockData` holds the fixed seed data.
- `ClientView` holds the normalisers.
- `ClientMatching` holds `findMatches`. Its sort is an in-place method on an
  array, proved equal to the stable partition.
- `ClientWizard` holds the wizard. It is a class whose handlers update its
  fields.
- `TalentView` holds the talent view and the profile editor class.
- `App` holds the registry and session class, plus two methods that compose
  handlers across views:
  - publishing a casting from the wizard;
  - a talent saving their own profile.

Where a handler takes input from the outside world, that input becomes a
parameter:

- the brief generator's answer, which is `None` when the request failed;
- the clock readings used as project id and creation time;
- the seed talent pool, which `data/mockData.ts` generates at random.

## Model

| member | source | states |
|---|---|---|
| ClientView.NormalizeGender | components/ClientView.tsx:14-22 | Empty text is `any`. Otherwise the result is `female` exactly when some female token occurs in the lower-cased text, and `male` exactly when no female token occurs and some male token does. |
| ClientView.GenderByTokens | components/ClientView.tsx:15-21 | The normaliser as a three-way table: the female list is tested first, then the male list, and anything else is `any`. |
| ClientView.GenderExamples | components/ClientView.tsx:14-22 | "Masculino" is male, "Femenino" is female, "Cualquiera" is any, and the empty string is any. These are the spellings in the seed roles. |
| ClientView.FemaleWinsOverMale | components/ClientView.tsx:18-20 | "woman" contains the male token "man" and is still female, because female tokens are tested first. |
| ClientView.CompatibleAgeRanges | components/ClientView.tsx:25-58 | Every returned label is one of the seven canonical labels. The result is empty, a single label, or exactly the four middle labels. |
| ClientView.FirstAgeGroupIsFirst | components/ClientView.tsx:30-50 | The reference ladder picks the first keyword group that occurs, and no earlier group occurs. |
| ClientView.AgeLadder | components/ClientView.tsx:25-58 | The age normaliser equals the reference ladder: the first matching group gives its label alone. With no group, an adult term gives the four middle labels, and anything else gives no constraint. |
| ClientView.AgeGroupSelected | components/ClientView.tsx:30-50 | When group g is the first group that occurs, the result is exactly the g-th canonical label. |
| ClientView.AdultFanOut | components/ClientView.tsx:53-57 | With no keyword group present, "adult"/"adulto" gives the four middle labels; otherwise the result is empty. |
| ClientView.AdultoExample | components/ClientView.tsx:53-55 | "adulto" gives exactly "20-30", "30-40", "40-50", "50-60". |
| ClientView.ChildPhraseExample | components/ClientView.tsx:30-32 | "niño de 7 años" gives exactly the child label. |
| ClientView.CanonicalLabelIsFixedPoint | data/mockData.ts:8 | Each of the seven canonical labels normalises to exactly itself. For example, "40-50" hits '40' before '50', and "50-60" hits '50' before '60'. |
| ClientMatching.MatchesAreEligible | components/ClientView.tsx:132-150 | Every suggestion is from the pool and passes both checks. Gender: the role's normalised gender is any, or equals the talent's. Age: the compatible list is empty, or the talent's raw label is in it. |
| ClientMatching.Eligible | components/ClientView.tsx:131-149 | A talent passing the filter for a gendered role has exactly the role's normalised gender. One passing an age-constrained role carries a canonical age label. |
| ClientMatching.GenderedRoleExcludes | components/ClientView.tsx:136-138 | For a gendered role, a talent of a different normalised gender is never suggested. This includes a talent whose gender normalises to any. |
| ClientMatching.UnconstrainedRoleKeepsPool | components/ClientView.tsx:132-150 | A role with gender any and no recognised age filters nobody out. |
| ClientMatching.Score | components/ClientView.tsx:154-156 | The score is 0 or 1. It is 1 exactly when some word of the voice type occurs in the lower-cased description. |
| ClientMatching.VoiceTokens | components/ClientView.tsx:153-155 | The voice words are never empty as a list and contain no space. Joined with single spaces they give back the lower-cased voice type. |
| ClientMatching.SortByRelevance | components/ClientView.tsx:153-158 | The in-place sort leaves the array equal to the stable partition of its old contents: score-1 talents first, each group in input order. |
| ClientMatching.FindMatches | components/ClientView.tsx:127-161 | The result equals the modelled suggestions. Its length is the smaller of ten and the number of eligible talents, and it is a prefix of the ranked eligible list. |
| ClientMatching.Matches | components/ClientView.tsx:127-161 | There are at most ten suggestions. Every suggestion is an eligible talent, and none is suggested more often than it occurs among the eligible talents. |
| ClientMatching.MatchesRankedByScore | components/ClientView.tsx:153-158 | Along the suggestions the score never increases. |
| ClientMatching.MatchesKeepPoolOrder | components/ClientView.tsx:153-160 | Within each score, the suggestions are a prefix of the eligible talents of that score, in pool order. This is stability. |
| ClientMatching.FewEligibleAllSuggested | components/ClientView.tsx:160 | With at most ten eligible talents, the suggestions are a permutation of the eligible talents. |
| ClientMatching.EmptyWordScoresAll | components/ClientView.tsx:155-156 | An empty word in the split voice type makes every talent score 1. |
| ClientMatching.EmptyWordKeepsPoolOrder | components/ClientView.tsx:153-160 | When the voice type yields an empty word, the suggestions are the first ten eligible talents in pool order. |
| ClientMatching.EmptyVoiceTypeWords | components/ClientView.tsx:154-155 | An empty voice type splits into the single empty word. |
| ClientMatching.InstitutionalVoiceTokens | data/mockData.ts:95 | The seeded "Cálida, Tecnológica" voice type splits into "cálida," (comma kept) and "tecnológica". |
| ClientMatching.PunctuationStaysInWords | components/ClientView.tsx:154-156 | Because the comma stays in the word, the description "Voz cálida y cercana" scores 0 for the seeded institutional role. |
| ClientMatching.DocumentaryRoleEligibility | data/mockData.ts:83 | The seeded documentary role ("Cualquiera", "40-50") accepts exactly the talents labelled "40-50", whatever their gender. |
| ClientMatching.ProtagonistRoleEligibility | data/mockData.ts:70 | The seeded protagonist role ("Masculino", "20-30") accepts exactly the male talents labelled "20-30". |
| Seqs.StablePartitionPermutes | components/ClientView.tsx:153-158 | The stable partition is a permutation of its input. |
| Seqs.StablePartitionKeyedFirst | components/ClientView.tsx:153-158 | In the stable partition, every keyed element comes before every unkeyed one. |
| Seqs.StablePartitionStable | components/ClientView.tsx:153-158 | Restricted to either key value, the stable partition keeps input order. |
| Seqs.StablePartitionUnique | components/ClientView.tsx:153-158 | Any arrangement with keyed elements first and input order within each key value is the stable partition. So a stable sort on the score has exactly this result. |
| Seqs.FilterMember | components/ClientView.tsx:132 | `filter` keeps an element exactly when it occurs and satisfies the predicate. |
| ClientWizard.Wizard.constructor | components/ClientView.tsx:62-73 | The wizard starts with an empty brief, no roles, no title, the input step and no selections. |
| ClientWizard.Wizard.EditBrief | components/ClientView.tsx:344-369 | Typing in the brand, campaign or brief field sets exactly those three fields. |
| ClientWizard.Wizard.HandleAnalyze | components/ClientView.tsx:79-97 | A brief that trims to empty sends no request and changes nothing. Otherwise the request is "Marca: …. Campaña: …. Descripción: …". A failed answer changes nothing. A successful answer replaces the roles, sets the title, clears the selections and moves to review. The brief fields are never changed. |
| ClientWizard.Wizard.ApplyAnalysis | components/ClientView.tsx:87-91 | A successful answer stores the given roles and title, clears every selection and moves to review. The brief fields are left as they were. |
| ClientWizard.ChosenTitle | components/ClientView.tsx:89 | A campaign name with a visible character is the title verbatim, spaces included. A campaign name made only of whitespace falls back to the generator's title. |
| ClientWizard.BriefRequest | components/ClientView.tsx:84 | The request carries the brand and the campaign name, and ends with the brief verbatim. |
| ClientWizard.Wizard.HandleSelectCandidate | components/ClientView.tsx:99-104 | Only the key for that role index changes. That candidate then shows as selected for the role, and no other candidate does. |
| ClientWizard.Wizard.IsCandidateSelected | components/ClientView.tsx:420 | A role index with no recorded choice shows no candidate as chosen. A chosen non-empty id is the talent that role publishes with. |
| ClientWizard.SelectionFor | components/ClientView.tsx:119 | A role has a talent exactly when its index has a non-empty selection, and the talent is that selection. |
| ClientWizard.ConfirmedRoles | components/ClientView.tsx:116-120 | There is one published role per generated role, in order. Each keeps the generated fields, gets id "new-r-" followed by its index, and carries its selection. |
| ClientWizard.ConfirmedRoleIdsDistinct | components/ClientView.tsx:118 | Different positions get different role ids. |
| ClientWizard.SelectThenConfirm | components/ClientView.tsx:99-120 | Selecting a non-empty talent for role i makes it role i's talent in the published project. An empty id leaves role i without a talent. Every other role stays as it was. |
| ClientWizard.Wizard.HandleConfirmProject | components/ClientView.tsx:106-124 | The project is open, has the given id and timestamp, the reviewed title, the brief as description, client "current-client"/"Mi Agencia", brand equal to the brand field, and the confirmed roles. The step becomes success; nothing else changes. |
| ClientWizard.Wizard.BackToEdit | components/ClientView.tsx:471 | The back button returns to the input step and keeps everything else. |
| ClientWizard.Wizard.StartOver | components/ClientView.tsx:490 | "Create another" returns to the input step and empties prompt, campaign and brand. Roles, title and selections are left as they were. |
| ClientWizard.StartOverThenAnalyze | components/ClientView.tsx:79-80 | Analysing right after starting over sends nothing, because the brief is empty. The wizard stays on the input step with empty brief, brand and campaign, and keeps its roles, title and selections. |
| TalentView.NormalizeGender | components/TalentView.tsx:14-20 | This is the talent view's normaliser: the same ordered tests without "niña"/"niño". Empty text is any. |
| TalentView.GenderByTokens | components/TalentView.tsx:15-19 | The talent normaliser as a three-way table, female list first. |
| TalentView.NormalisersAgree | components/TalentView.tsx:14-20 | The two normalisers agree on every text that contains neither "niña" nor "niño". |
| TalentView.NinaDisagrees | components/TalentView.tsx:17 | "niña" is any for the talent view but female for the client matcher. |
| TalentView.OpenProjects | components/TalentView.tsx:44 | A project is an opportunity exactly when it is in the list and open. There are never more opportunities than projects. |
| TalentView.OpenProjectsConcat | components/TalentView.tsx:44 | The opportunities of two lists in sequence are those of the first followed by those of the second, so the projects' order is kept. |
| TalentView.RoleMatches | components/TalentView.tsx:67-68 | A role with an empty gender matches every talent. A talent of unrecognised gender matches exactly the roles of unrecognised gender. |
| TalentView.RoleSelected | components/TalentView.tsx:69 | A role with no chosen talent is selected for nobody. A role selected for one talent is selected for no other. |
| TalentView.RoleBadge | components/TalentView.tsx:67-88 | A role shows "selected" exactly when its selected talent id is this talent's. It shows "Match" exactly when it is not selected and its normalised gender is any or the talent's own. Age is not consulted. |
| TalentView.SuggestedSeesMatch | components/TalentView.tsx:67-68 | A talent that passes the client matcher's gender check for a role sees that role as a match, provided neither gender text names a child. |
| TalentView.SplitList | components/TalentView.tsx:36 | One item per comma-separated piece, each the trimmed piece. |
| TalentView.SplitListShape | components/TalentView.tsx:35-38 | There are (number of commas + 1) items, empty pieces included, each trimmed and comma-free. |
| TalentView.EmptyFieldGivesOneEmptyItem | components/TalentView.tsx:36 | An emptied list field gives one empty item, not an empty list. |
| TalentView.SplitListJoin | components/TalentView.tsx:236-237 | A non-empty list of trimmed, comma-free items, displayed with `join(', ')` and read back, is unchanged. |
| TalentView.ApplyEdit | components/TalentView.tsx:31-33 | A form edit sets the named field to the value and leaves every other field of the profile unchanged. |
| TalentView.EditCurrentValue | components/TalentView.tsx:31-33 | Writing a field's current value back changes nothing. |
| TalentView.LaterEditWins | components/TalentView.tsx:31-33 | Of two edits to the same field, the later wins. |
| TalentView.EditsCommute | components/TalentView.tsx:31-33 | Edits to different fields commute. |
| TalentView.ProfileEditor.constructor | components/TalentView.tsx:23-24 | The form starts closed, holding the talent's profile. |
| TalentView.ProfileEditor.StartEditing | components/TalentView.tsx:160 | The edit button opens the form and keeps the working copy. |
| TalentView.ProfileEditor.CancelEditing | components/TalentView.tsx:165 | Cancel closes the form. The working copy keeps the edits made so far. |
| TalentView.ProfileEditor.HandleInputChange | components/TalentView.tsx:31-33 | The working copy becomes the old copy with one field replaced. |
| TalentView.ProfileEditor.HandleArrayInput | components/TalentView.tsx:35-38 | The list field becomes the split and trimmed text; nothing else changes. |
| TalentView.ProfileEditor.HandleSave | components/TalentView.tsx:26-29 | The working copy is handed out unchanged and the form closes. |
| TalentView.RetypeListField | components/TalentView.tsx:236-237 | Retyping a non-empty list field of trimmed, comma-free items exactly as displayed leaves the profile and the editing flag unchanged. |
| App.CountStatusPrepend | App.tsx:22-23 | A prepended project adds one to the count of its own status only. |
| App.StatusCountsPartition | App.tsx:22-23 | The four status counts add up to the number of projects. |
| App.DeriveStats | App.tsx:20-26 | The talent count is the pool size. Active plus completed castings never exceed the number of projects. Clients and revenue are the fixed 15 and 45200. |
| App.ActiveAreOpportunities | App.tsx:22 | The active-castings figure is the number of opportunities talents see. |
| App.MockStats | App.tsx:20-26 | On the seeded projects the figures are: talent count, 2 active, 1 completed, 15 clients, 45200 revenue. |
| App.ReplaceById | App.tsx:62 | Length is preserved. Every talent with the updated id becomes the updated profile, and every other talent is unchanged. |
| App.ReplaceFindsUpdated | App.tsx:62 | After the update, any profile with that id is the updated one. It is present exactly when the id was. |
| App.ReplaceUnknownId | App.tsx:62 | An update whose id nobody has leaves the pool unchanged. |
| App.ReplaceIdempotent | App.tsx:62 | Saving the same profile twice is the same as saving it once. |
| App.AppState.constructor | App.tsx:12-17 | No user is logged in and the view is the dashboard. The projects are the seeded projects and the talents the given pool. The dashboard then shows 2 active and 1 completed casting. |
| App.AppState.HandleLogin | App.tsx:30-50 | TALENT logs in as the pool's first profile (nobody if the pool is empty), on "profile". CLIENT logs in as "Agencia 360", on "my-castings". MANAGER logs in as "Admin User", on "dashboard". The data is untouched. |
| App.AppState.HandleLogout | App.tsx:52-55 | Nobody is logged in and the view is the dashboard. |
| App.AppState.HandleCreateProject | App.tsx:57-59 | The projects become the new project followed by the old list. |
| App.AppState.HandleUpdateTalent | App.tsx:61-67 | Profiles are replaced by id. The logged-in account becomes the updated profile exactly when its id matches. |
| App.PublishedLeadsOpportunities | App.tsx:57-59 | An open project that is prepended becomes the first opportunity, followed by the previous opportunities. |
| App.PublishCasting | components/ClientView.tsx:106-122 | The published project is the one the wizard builds: the given id and date, open, the wizard's title, brief and brand, and the confirmed roles with their selections. Its client is "current-client", named "Mi Agencia". It is prepended to the registry, heads the opportunities and adds one active casting. The wizard reaches the success step with its inputs, roles, title and selections kept. Talents, session and view are unchanged. |
| App.SaveOwnProfile | components/TalentView.tsx:26-29 | A talent saving their own profile updates both the registry and the session. The editor leaves editing mode with its form kept. Projects and the current view are unchanged. |
| JsText.SplitCount | components/TalentView.tsx:36 | `split` returns one more piece than there are separators. |
| JsText.SplitJoin | components/TalentView.tsx:36 | Joining a non-empty list of separator-free pieces and splitting again gives the pieces back. |
| JsText.TrimShape | components/TalentView.tsx:36 | `trim` removes exactly a whitespace prefix and suffix and leaves neither end blank. |
| JsText.TrimBlank | components/ClientView.tsx:80 | `trim` gives the empty string exactly when every character is whitespace. |
| JsText.ContainsIff | components/ClientView.tsx:18 | `includes` holds exactly when the token occurs at some position. |
| JsText.DecimalRoundTrip | components/ClientView.tsx:118 | Reading back the decimal rendering of an index gives the index. |

## Left out

- Rendering is not modelled: JSX, CSS classes, icons, audio players, charts, `ManagerView` and `Sidebar`. They hold no logic beyond choosing what to display.
- The brief generator in `services/geminiService.ts` is a network call. Its answer, or its failure, is a parameter of `ClientWizard.Wizard.HandleAnalyze`. Only its result shape (roles plus title) is modelled.
- The `isAnalyzing` flag, the `await` and the `alert` on failure in `handleAnalyze` are asynchrony and UI side effects. A failed answer is modelled as changing no wizard field.
- `Date.now()` and `new Date().toISOString()` are clock reads. They are the `id` and `createdAt` parameters of `HandleConfirmProject`.
- The random talent pool of `data/mockData.ts` (`Math.random`, the float `rating` with `toFixed`) is not modelled. The pool is a parameter and the rating is carried but never computed with. Only the age labels and the fixed seeded projects are constants.
- `JsText.ToLower` lower-cases ASCII letters and Á É Í Ó Ú Ñ Ü only. Full Unicode case mapping is not modelled.
- `ClientMatching.SortByRelevance` uses a rotation-based stable partition, not the engine's own sort algorithm. Any stable sort with this comparator has the same result (`Seqs.StablePartitionUnique`).
- The project-detail navigation of the client view (`selectedProject`), the `isReadOnly` switch and the read-only views of the talent screen are left out. They only choose what is shown.
- The Generate button is disabled while the brief or the campaign name is empty, so the application only analyses when both are filled in. That guard is not modelled: `ClientWizard.Wizard.HandleAnalyze` and `ClientWizard.StartOverThenAnalyze` may run in any state, and their contracts hold for all inputs.
- The per-keystroke field setters are folded into `ClientWizard.Wizard.EditBrief` for the brief. For the profile they are `TalentView.ProfileEditor.HandleInputChange`.
- The form edits only the name, age range, description and the three brand/actor lists, as the form does. Other keys of `handleInputChange` are never used by the view and are not modelled.
- `handleCreateProject` is also wired to an "empty project" button on the client's project list (`{} as any`). That untyped call is not modelled; `HandleCreateProject` takes a well-formed project.
