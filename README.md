# Athlete service: import and reconciliation engine

A Dafny model of the service layer of the SwimResults athlete service. The
service keeps two document collections, teams and athletes. Meeting feeds
bring in teams and athletes, and the service reconciles each one with what
is already stored:

- **Teams** are resolved by name (the name as a pattern against name and
  aliases, or its alias key against the aliases). A known team has its empty
  federation id, state id and country filled in. An unknown team is created
  with its first meeting stamped. Either way the meeting is recorded in the
  team's participation set.
- **Athletes** are resolved by federation id (DSV id) first, then by name
  and birth year. A known athlete has its empty federation id and gender
  filled in. First and last name are replaced together from an incoming
  "Last, First" name when either of them is empty, so a populated first or
  last name can be overwritten; the code does this, and the model follows
  the code rather than a "never overwrite a populated field" reading. An unknown athlete is created in the team the
  import names, which must exist. The meeting is then recorded.

The model has five modules:

- `Service` — the alias key (`Aliasify`) and the set-style append
  (`AppendWithoutDuplicates`).
- `Store` — the in-memory view of a collection: a map from id to document,
  the next free id, and the "first hit of a name-sorted find" as the least
  matching key under (name, id).
- `Model` — the Team and Athlete records, the fill-only-if-empty merge
  rule, and the two collaborators whose code is not modelled (the store's
  regex match and the comma-name splitter), passed in as an `Env` value.
- `TeamService` — the team collection as a class.
- `AthleteService` — the athlete collection as a class reading the team
  collection.

The storage driver may fail on any call; each primitive step chooses
nondeterministically whether it fails.

Each import method is proved against a ghost plan function: `PlanTeamImport`
or `PlanImport`. A plan gives the outcome when every storage call succeeds:
the id chosen or created, whether it was created, and the collection after
the merge or create step and after the participation step. The import's
`ensures` ties a success to the plan. On a failure it says the collection is
in one of the plan's intermediate states. The lemmas beside each plan state
what the import promises: which record is chosen, when one is created, and
which populated fields are never overwritten.

## Model

| member | source | states |
|---|---|---|
| `Service.Aliasify` | service/service.go:49-56 | the key has no space character, is the input's length minus its spaces, and keeps the lower-cased form of every other character |
| `Service.AliasifyDropsSpacesThenLowers` | service/service.go:49-56 | lower-casing then removing spaces equals removing spaces then lower-casing, so the key is the name without spaces, lower-cased, in order |
| `Service.AliasifyIdempotent` | service/service.go:49-56 | the alias key of an alias key is itself |
| `Service.RemoveAll` | service/service.go:51 | replacing every space by nothing leaves no space, removes exactly the spaces, and keeps every other character |
| `Service.ToLower` | service/service.go:50 | lower-casing keeps the length and maps each character through ASCII lower-casing |
| `Service.AppendWithoutDuplicates` | service/service.go:58-69 | the scan finds whether the element is present; the list is returned as is if so, with the element appended otherwise |
| `Service.AppendUniqueContains` | service/service.go:58-69 | the element is present afterwards, every earlier element is kept in place, and at most one element is added |
| `Service.AppendUniqueNoDuplicates` | service/service.go:58-69 | a duplicate-free list stays duplicate-free |
| `Service.AppendUniqueIdempotent` | service/service.go:58-69 | appending the same element a second time changes nothing |
| `Store.Least` | service/team_service.go:32 | among a set of keys, the least matching key in (name, id) order, and none exactly when no key there matches |
| `Store.First` | service/athlete_service.go:35 | the first hit of a name-sorted find: none exactly when nothing matches, otherwise a hit that no other hit precedes |
| `Store.FirstIsUnique` | service/athlete_service.go:35 | any key that precedes every hit is the first hit, so the first hit is well defined |
| `Store.FindFirst` | service/team_service.go:26-52 | the scan over the collection returns the first hit of the name-sorted find, or none exactly when no record matches |
| `Store.LookupError` | service/athlete_service.go:110-121 | a lookup that found nothing yields the not-found error with its message, and a driver failure yields the storage failure |
| `Model.Fill` | service/team_service.go:198-211 | a populated value is kept, an empty one takes the incoming value, and the value changes exactly when it was empty and the incoming one is not |
| `TeamService.TeamQueryIsFirstHit` | service/team_service.go:26-52 | a single-team lookup returns the first hit in name order, and misses exactly when no team matches |
| `TeamService.TeamQueryById` | service/team_service.go:80-90 | a lookup by id finds the team stored under that id, and misses exactly when there is none |
| `TeamService.MergeTeam` | service/team_service.go:198-211 | federation id, state id and country are filled only where empty, nothing else changes, and an update is due exactly when the team changed |
| `TeamService.AddedAliasGrowsByOne` | service/team_service.go:145 | AddTeam appends the alias key unconditionally: the list grows by one, and holds the key twice if it was already there |
| `TeamService.UpdatedAliasInvariant` | service/team_service.go:234 | after UpdateTeam the alias key is present, a duplicate-free list stays so, earlier aliases are kept, and a second update changes nothing |
| `TeamService.TeamParticipationIdempotent` | service/team_service.go:162 | recording a meeting adds it once, changes no other field, and recording it again changes nothing |
| `TeamService.ImportTeamCreatesIffUnknown` | service/team_service.go:175-193 | ImportTeam creates a team exactly when the name lookup finds none |
| `TeamService.ImportTeamCreates` | service/team_service.go:178-191 | a created team gets a fresh id, its first meeting, the appended alias key and the meeting in its participation, and all other teams are unchanged |
| `TeamService.ImportTeamMerges` | service/team_service.go:196-227 | a known team keeps its populated fields, name and first meeting, gains the meeting, is written only if a field was filled, and all other teams are unchanged |
| `TeamService.TeamStore.constructor` | service/team_service.go:18-20 | a new store is empty and well-keyed |
| `TeamService.TeamStore.Find` | service/team_service.go:26-52 | a find returns the first hit in name order, a miss, or a driver failure |
| `TeamService.TeamStore.Insert` | service/team_service.go:147 | a successful insert stores the team under a fresh id; a failure stores nothing |
| `TeamService.TeamStore.Replace` | service/team_service.go:167 | a successful replace overwrites the team with that id if there is one; otherwise nothing changes |
| `TeamService.TeamStore.GetTeamById` | service/team_service.go:80-90 | returns the team stored under the id, misses exactly when there is none, or fails |
| `TeamService.TeamStore.GetTeamByDsvId` | service/team_service.go:92-102 | returns the first team with that non-zero federation id, a miss, or a driver failure |
| `TeamService.TeamStore.GetTeamByName` | service/team_service.go:104-121 | returns the first team whose name or an alias matches the name, or whose alias matches its alias key; or a miss or a driver failure |
| `TeamService.TeamStore.AddTeam` | service/team_service.go:141-153 | on success the team is stored under a fresh id with the alias key appended and returned as read back; on failure the store is unchanged or holds the new team |
| `TeamService.TeamStore.AddTeamParticipation` | service/team_service.go:155-173 | a missing id is an error; on success the meeting is added to that team's participation set and nothing else changes |
| `TeamService.TeamStore.UpdateTeam` | service/team_service.go:230-242 | on success the team is replaced with the alias key added if absent; a missing id is an error with nothing changed |
| `TeamService.TeamStore.ImportTeam` | service/team_service.go:175-228 | success gives the plan's final collection, id and created flag; a failure leaves the collection as before, after the create or merge step, or as planned, and never reports a creation |
| `AthleteService.AthleteQueryById` | service/athlete_service.go:110-121 | a lookup by id finds the athlete stored under that id, with its team joined, and misses exactly when there is none |
| `AthleteService.Normalize` | service/athlete_service.go:183-191 | TeamId is taken from the embedded team, a comma name is split into first and last name and rewritten as "First Last", the alias key of the name is present, earlier aliases are kept, and nothing else changes |
| `AthleteService.AthleteParticipationIdempotent` | service/athlete_service.go:211 | recording a meeting adds it once, changes no other field, and recording it again changes nothing |
| `AthleteService.MergeAthlete` | service/athlete_service.go:260-278 | names are taken from a comma name only when first or last name is empty; federation id and gender are filled only where empty; nothing else changes; an update is due exactly when one of these applied |
| `AthleteService.ImportAthleteNeedsTeam` | service/athlete_service.go:229-231 | the import is rejected with "no team set in import", reporting no creation, exactly when the athlete names no team |
| `AthleteService.ImportAthletePrefersDsvId` | service/athlete_service.go:236-247 | an athlete with the incoming non-zero federation id is merged into, whatever the name matches |
| `AthleteService.ImportAthleteFallsBackToNameAndYear` | service/athlete_service.go:250-258 | with no federation id or no athlete having it, the first athlete of that year whose name or alias matches is merged into |
| `AthleteService.ImportAthleteCreatesIffUnresolved` | service/athlete_service.go:236-258 | with a team named, the import reports a creation exactly when neither lookup finds an athlete |
| `AthleteService.ImportAthleteTeamMissRejects` | service/athlete_service.go:292-300 | when a new athlete's team is not found, the import fails with that lookup's miss, reports a creation and stores nothing |
| `AthleteService.ImportAthleteCreates` | service/athlete_service.go:287-313 | a new athlete gets a fresh id, its first meeting, the found team's id, its alias key and the meeting, keeps its federation data, and all other athletes are unchanged |
| `AthleteService.ImportAthleteMergeNeverOverwrites` | service/athlete_service.go:260-286 | a known athlete keeps populated federation id and gender, its year, first meeting, earlier aliases and a name without comma, and its first and last name unless they are taken from a comma name; it gains the meeting; nothing is written unless a field was filled; all other athletes are unchanged |
| `AthleteService.ImportAthleteMergeReplacesBothNames` | service/athlete_service.go:264-269 | when either name is empty and the incoming name has the comma form, both first and last name are replaced from it, overwriting a populated one |
| `AthleteService.ImportAthleteMergeResetsOrphanTeam` | service/athlete_service.go:280-286 | the merge writes back the TeamId of the team joined on read, so an athlete whose team no longer exists loses its TeamId when a field is filled in |
| `AthleteService.AthleteStore.constructor` | service/athlete_service.go:20-23 | a new store is empty and well-keyed, and reads the given team collection |
| `AthleteService.AthleteStore.Find` | service/athlete_service.go:29-61 | a find returns the first hit in name order with its team joined, a miss, or a driver failure |
| `AthleteService.AthleteStore.Insert` | service/athlete_service.go:193 | a successful insert stores the athlete, without its embedded team, under a fresh id; a failure stores nothing |
| `AthleteService.AthleteStore.Replace` | service/athlete_service.go:351 | a successful replace overwrites the athlete with that id if there is one; otherwise nothing changes |
| `AthleteService.AthleteStore.GetAthleteById` | service/athlete_service.go:110-121 | returns the athlete stored under the id with its team joined, misses exactly when there is none, or fails |
| `AthleteService.AthleteStore.GetAthleteByDsvId` | service/athlete_service.go:123-134 | returns the first athlete with that non-zero federation id, a miss, or a driver failure |
| `AthleteService.AthleteStore.GetAthleteByNameAndYear` | service/athlete_service.go:136-162 | returns the first athlete of that non-zero year whose name matches the (comma-rewritten) name, or whose alias matches its alias key |
| `AthleteService.AthleteStore.Prepare` | service/athlete_service.go:183-191 | the shared normalisation steps compute `Normalize` |
| `AthleteService.AthleteStore.AddAthlete` | service/athlete_service.go:179-202 | on success the normalised athlete is stored under a fresh id and returned with its team; on failure the store is unchanged or holds the new athlete |
| `AthleteService.AthleteStore.UpdateAthlete` | service/athlete_service.go:337-360 | on success the normalised athlete replaces the one with its id; a missing id is an error with nothing changed |
| `AthleteService.AthleteStore.AddParticipation` | service/athlete_service.go:204-225 | a missing id is an error; on success the meeting is added to that athlete's participation set and nothing else changes |
| `AthleteService.AthleteStore.Resolve` | service/athlete_service.go:236-258 | a hit is the athlete identity resolution chooses; a miss means it chooses none; a failing lookup ends the resolution |
| `AthleteService.AthleteStore.MergeExisting` | service/athlete_service.go:260-286 | the merged athlete is written back only if the merge changed something; a failure leaves the collection unchanged or written |
| `AthleteService.AthleteStore.CreateNew` | service/athlete_service.go:287-308 | a team miss stores nothing; success stores the new athlete with the first meeting and the found team's id under a fresh id |
| `AthleteService.AthleteStore.ImportAthlete` | service/athlete_service.go:227-335 | no team set is rejected with nothing written; success gives the plan's final collection, id and created flag; a failure leaves the collection as before, after the merge or create step, or as planned |

## Left out

- Storage plumbing: connection set-up, ping, context timeouts, cursors and
  logging. A driver error or timeout is a nondeterministic failure of the
  storage step.
- The store's regular-expression matcher and the comma-name splitter
  (`extractNames`) are opaque collaborators (`Env.regex`,
  `Env.extractNames`). Their code is not part of this model.
- `getTeamByName`, called at service/athlete_service.go:296, is not part of
  this model. It is taken to be the name lookup of
  service/team_service.go:104-121.
- Lower-casing covers ASCII letters only. Unicode case mapping is not
  modelled.
- The store leaves the order of equal names unspecified. The model breaks
  such ties by id.
- Insert always assigns a fresh id; a client-supplied `_id` is not modelled.
- The team join on read (service/athlete_service.go:47-51) never fails in
  the model. In the source a failing join leaves the zero team, like a
  missing team; only a missing team is modelled.
- List queries are not modelled: paging, `GetTeams`, `GetTeamsByMeeting`,
  `GetAthletes`, `GetAthletesByMeetingId`, `GetAthletesByTeamId`. Nor are
  `GetTeamByAlias` and `RemoveAthleteById`, which the import does not use.
- Not modelled either: controllers, HTTP clients, certificates, the example
  service, and the team fields address, contact, website, logo and colour
  set, which are only copied through.
- Concurrency between two imports of the same athlete or team (a
  check-then-insert race) is not modelled; each operation runs alone.
- `AthleteService.AthleteStore.ImportAthlete`: on failure the contract gives
  the possible collection states, not which storage call failed.
- `TeamService.TeamStore.ImportTeam`: on failure the contract gives the
  possible collection states, not which storage call failed.
- `AthleteService.ImportAthleteMergeNeverOverwrites`: it states that nothing
  is written when no field was filled, not the converse. A filled-in name
  can equal the stored one, and then the write changes nothing.
