/** The athlete collection: lookups by id, federation id and name-and-year,
    creation and replacement with name normalisation, participation
    tracking, and the reconciling import of an athlete seen in a meeting
    feed. */
module AthleteService {
  import opened Store
  import opened Model
  import opened Service
  import TeamService

  const NoIdMatch := "no entry with given id found"
  const NoTeamSet := "no team set in import"

  /** The sort key of athlete finds. */
  function AthleteName(a: Athlete): string
  {
    a.name
  }

  /** Filter `{_id: id}`. */
  function ById(id: Id): (Id, Athlete) -> bool
  {
    (k: Id, a: Athlete) => k == id
  }

  /** Filter `{dsv_id: dsvId}`; a zero federation id is not stored. */
  function ByDsvId(dsvId: int): (Id, Athlete) -> bool
  {
    (k: Id, a: Athlete) => a.dsvId != 0 && a.dsvId == dsvId
  }

  /** The name the name-and-year lookup searches for: a comma name is
      rewritten as "First Last". */
  function SearchName(env: Env, name: string): string
  {
    var n := env.extractNames(name);
    if n.hasComma then n.first + " " + n.last else name
  }

  /** Filter of the name-and-year lookup: the year is equal (a zero year is
      not stored), and the name matches the stored name as a pattern or its
      alias key matches some alias. */
  function ByNameAndYear(env: Env, name: string, year: int): (Id, Athlete) -> bool
  {
    var n := SearchName(env, name);
    (k: Id, a: Athlete) =>
      && a.year != 0 && a.year == year
      && (FieldMatches(env, n, a.name) || AnyAliasMatches(env, Aliasify(n), a.alias))
  }

  /** Reads attach the athlete's team, or the zero team when no team has its
      TeamId. */
  function Joined(a: Athlete, teams: map<Id, Team>): Athlete
  {
    a.(team := if a.teamId in teams then teams[a.teamId] else ZeroTeam)
  }

  /** Writes drop the embedded team; only TeamId is stored. */
  function Stored(a: Athlete): Athlete
  {
    a.(team := ZeroTeam)
  }

  /** What a single-athlete lookup with filter `p` returns when the store
      answers: the first hit in name order with its team attached, or
      NotFound. */
  ghost function AthleteQuery(docs: map<Id, Athlete>, teams: map<Id, Team>, p: (Id, Athlete) -> bool): Lookup<Athlete>
  {
    match First(docs, AthleteName, p)
    case Some(k) => Found(Joined(docs[k], teams))
    case None => NotFound
  }

  /** A lookup by id finds exactly the record stored under that id. */
  lemma {:induction false} AthleteQueryById(docs: map<Id, Athlete>, teams: map<Id, Team>, id: Id)
    ensures AthleteQuery(docs, teams, ById(id)) == if id in docs then Found(Joined(docs[id], teams)) else NotFound
  {
    if id in docs {
      FirstIsUnique(docs, AthleteName, ById(id), id);
    }
  }

  /** The normalisation AddAthlete and UpdateAthlete apply before writing:
      TeamId is taken from the embedded team, a comma name is split into
      first and last name and rewritten as "First Last", and the alias key
      of the (new) name joins the aliases unless already there. */
  function Normalize(env: Env, a: Athlete): (r: Athlete)
    ensures r.teamId == a.team.id
    ensures Aliasify(r.name) in r.alias
    ensures |a.alias| <= |r.alias| <= |a.alias| + 1 && r.alias[..|a.alias|] == a.alias
    ensures NoDuplicates(a.alias) ==> NoDuplicates(r.alias)
    ensures var n := env.extractNames(a.name);
      if n.hasComma then r.name == n.first + " " + n.last && r.firstname == n.first && r.lastname == n.last
      else r.name == a.name && r.firstname == a.firstname && r.lastname == a.lastname
    ensures r == a.(teamId := r.teamId, name := r.name, firstname := r.firstname,
                    lastname := r.lastname, alias := r.alias)
  {
    var n := env.extractNames(a.name);
    var b := a.(teamId := a.team.id);
    var c := if n.hasComma then b.(name := n.first + " " + n.last, firstname := n.first, lastname := n.last) else b;
    AppendUniqueContains(c.alias, Aliasify(c.name));
    AppendUniqueNoDuplicates(c.alias, Aliasify(c.name));
    c.(alias := AppendUnique(c.alias, Aliasify(c.name)))
  }

  /** The athlete with the meeting added to its participation set. */
  function WithParticipation(a: Athlete, meet: string): Athlete
  {
    a.(participation := AppendUnique(a.participation, meet))
  }

  /** Recording a participation adds the meeting once, changes no other
      field, and recording it again changes nothing. */
  lemma AthleteParticipationIdempotent(a: Athlete, meet: string)
    ensures meet in WithParticipation(a, meet).participation
    ensures NoDuplicates(a.participation) ==> NoDuplicates(WithParticipation(a, meet).participation)
    ensures WithParticipation(a, meet) == a.(participation := WithParticipation(a, meet).participation)
    ensures WithParticipation(WithParticipation(a, meet), meet) == WithParticipation(a, meet)
  {
    AppendUniqueContains(a.participation, meet);
    AppendUniqueNoDuplicates(a.participation, meet);
    AppendUniqueIdempotent(a.participation, meet);
  }

  datatype AthleteMerge = AthleteMerge(athlete: Athlete, changed: bool)

  /** Whether the merge step takes first and last name from the incoming
      name: one of them is empty and the incoming name splits at a comma. */
  predicate TakesNames(env: Env, existing: Athlete, incoming: Athlete)
  {
    (existing.firstname == "" || existing.lastname == "") && env.extractNames(incoming.name).hasComma
  }

  /** The merge step of ImportAthlete on an existing athlete. */
  function MergeAthlete(env: Env, existing: Athlete, incoming: Athlete): (m: AthleteMerge)
    ensures existing.dsvId != 0 ==> m.athlete.dsvId == existing.dsvId
    ensures existing.dsvId == 0 ==> m.athlete.dsvId == incoming.dsvId
    ensures existing.gender != "" ==> m.athlete.gender == existing.gender
    ensures existing.gender == "" ==> m.athlete.gender == incoming.gender
    ensures var n := env.extractNames(incoming.name);
      if TakesNames(env, existing, incoming) then m.athlete.firstname == n.first && m.athlete.lastname == n.last
      else m.athlete.firstname == existing.firstname && m.athlete.lastname == existing.lastname
    ensures m.athlete == existing.(firstname := m.athlete.firstname, lastname := m.athlete.lastname,
                                   dsvId := m.athlete.dsvId, gender := m.athlete.gender)
    ensures m.changed <==>
      || TakesNames(env, existing, incoming)
      || m.athlete.dsvId != existing.dsvId
      || m.athlete.gender != existing.gender
    ensures !m.changed ==> m.athlete == existing
  {
    var n := env.extractNames(incoming.name);
    var named := if TakesNames(env, existing, incoming) then existing.(firstname := n.first, lastname := n.last) else existing;
    var changed :=
      || TakesNames(env, existing, incoming)
      || (existing.dsvId == 0 && incoming.dsvId != 0)
      || (existing.gender == "" && incoming.gender != "");
    AthleteMerge(named.(dsvId := Fill(existing.dsvId, incoming.dsvId, 0),
                        gender := Fill(existing.gender, incoming.gender, "")),
                 changed)
  }

  /** Identity resolution: the first athlete with the incoming federation id
      if that id is non-zero and such an athlete exists, otherwise the first
      athlete matching name and year. */
  ghost function ResolveAthlete(env: Env, docs: map<Id, Athlete>, a: Athlete): Option<Id>
  {
    var byDsvId := if a.dsvId != 0 then First(docs, AthleteName, ByDsvId(a.dsvId)) else None;
    if byDsvId.Some? then byDsvId else First(docs, AthleteName, ByNameAndYear(env, a.name, a.year))
  }

  /** The team a newly created athlete joins: looked up by the team's
      federation id if non-zero, otherwise by its name. */
  ghost function ResolveTeam(env: Env, teams: map<Id, Team>, t: Team): Option<Id>
  {
    if t.dsvId != 0 then First(teams, TeamService.TeamName, TeamService.ByDsvId(t.dsvId))
    else First(teams, TeamService.TeamName, TeamService.ByName(env, t.name))
  }

  /** The message of the failed team lookup. */
  function TeamMissMessage(t: Team): string
  {
    if t.dsvId != 0 then TeamService.NoIdMatch else TeamService.NoNameMatch
  }

  /** The document AddAthlete stores under a fresh id. */
  function Added(env: Env, a: Athlete, id: Id): Athlete
  {
    Stored(Normalize(env, a)).(id := id)
  }

  /** The document the create branch of ImportAthlete stores: the incoming
      athlete with the first meeting stamped and the resolved team's id. */
  function NewAthlete(env: Env, a: Athlete, meet: string, teamId: Id, id: Id): Athlete
  {
    Added(env, a.(firstMeeting := meet, team := a.team.(id := teamId)), id)
  }

  /** The outcome of ImportAthlete when every storage call succeeds: either
      a rejection, or the athlete chosen or created, whether it was created,
      the collection after the merge or create step (`mid`), the next free
      id, and the collection after participation is recorded (`final`). */
  datatype ImportPlan =
    | Rejected(error: Error, created: bool)
    | Planned(id: Id, created: bool, mid: map<Id, Athlete>, next: Id, final: map<Id, Athlete>)

  ghost function PlanImport(env: Env, teams: map<Id, Team>, docs: map<Id, Athlete>, nextId: Id,
                            a: Athlete, meet: string): ImportPlan
  {
    if a.team.name == "" && a.team.dsvId == 0 then Rejected(InvalidArgument(NoTeamSet), false)
    else
      match ResolveAthlete(env, docs, a)
      case Some(k) =>
        var m := MergeAthlete(env, Joined(docs[k], teams), a);
        var mid := if m.changed then docs[k := Stored(Normalize(env, m.athlete))] else docs;
        Planned(k, false, mid, nextId, mid[k := WithParticipation(mid[k], meet)])
      case None =>
        match ResolveTeam(env, teams, a.team)
        case None => Rejected(NotFoundError(TeamMissMessage(a.team)), true)
        case Some(tid) =>
          var doc := NewAthlete(env, a, meet, tid, nextId);
          var mid := docs[nextId := doc];
          Planned(nextId, true, mid, nextId + 1, mid[nextId := WithParticipation(doc, meet)])
  }

  /** Every stored athlete sits under its own id, below the next free id,
      and carries no embedded team. */
  ghost predicate WellKeyed(docs: map<Id, Athlete>, nextId: Id)
  {
    forall k :: k in docs ==> NilId < k < nextId && docs[k].id == k && docs[k].team == ZeroTeam
  }

  /** The team an import names: a name or a non-zero federation id. */
  predicate HasTeam(a: Athlete)
  {
    a.team.name != "" || a.team.dsvId != 0
  }

  /** Without a team, the import is rejected before any lookup. */
  lemma ImportAthleteNeedsTeam(env: Env, teams: map<Id, Team>, docs: map<Id, Athlete>, nextId: Id, a: Athlete, meet: string)
    ensures !HasTeam(a) <==> PlanImport(env, teams, docs, nextId, a, meet) == Rejected(InvalidArgument(NoTeamSet), false)
  {
  }

  /** An athlete with the incoming non-zero federation id wins over any
      name-and-year match: the first such athlete is the one merged into. */
  lemma ImportAthletePrefersDsvId(env: Env, teams: map<Id, Team>, docs: map<Id, Athlete>, nextId: Id,
                                  a: Athlete, meet: string, k: Id)
    requires HasTeam(a) && a.dsvId != 0
    requires IsFirst(docs, AthleteName, ByDsvId(a.dsvId), k)
    ensures var p := PlanImport(env, teams, docs, nextId, a, meet);
      p.Planned? && p.id == k && !p.created
  {
    FirstIsUnique(docs, AthleteName, ByDsvId(a.dsvId), k);
  }

  /** With no federation id to go by, or no athlete having it, the first
      athlete of equal year whose name or alias matches is merged into. */
  lemma ImportAthleteFallsBackToNameAndYear(env: Env, teams: map<Id, Team>, docs: map<Id, Athlete>, nextId: Id,
                                            a: Athlete, meet: string, k: Id)
    requires HasTeam(a)
    requires a.dsvId == 0 || forall j :: !Matching(docs, ByDsvId(a.dsvId), j)
    requires IsFirst(docs, AthleteName, ByNameAndYear(env, a.name, a.year), k)
    ensures var p := PlanImport(env, teams, docs, nextId, a, meet);
      p.Planned? && p.id == k && !p.created
  {
    FirstIsUnique(docs, AthleteName, ByNameAndYear(env, a.name, a.year), k);
  }

  /** An import with a team reports a creation exactly when neither lookup
      finds an athlete, whether or not the team of the new athlete exists. */
  lemma ImportAthleteCreatesIffUnresolved(env: Env, teams: map<Id, Team>, docs: map<Id, Athlete>, nextId: Id,
                                          a: Athlete, meet: string)
    requires HasTeam(a)
    ensures PlanImport(env, teams, docs, nextId, a, meet).created <==>
      && (a.dsvId == 0 || forall j :: !Matching(docs, ByDsvId(a.dsvId), j))
      && forall j :: !Matching(docs, ByNameAndYear(env, a.name, a.year), j)
  {
  }

  /** The create branch when the athlete's team cannot be found: the import
      fails with the team lookup's miss and stores nothing. */
  lemma ImportAthleteTeamMissRejects(env: Env, teams: map<Id, Team>, docs: map<Id, Athlete>, nextId: Id,
                                     a: Athlete, meet: string)
    requires HasTeam(a) && ResolveAthlete(env, docs, a).None?
    requires a.team.dsvId != 0 ==> forall j :: !Matching(teams, TeamService.ByDsvId(a.team.dsvId), j)
    requires a.team.dsvId == 0 ==> forall j :: !Matching(teams, TeamService.ByName(env, a.team.name), j)
    ensures PlanImport(env, teams, docs, nextId, a, meet) == Rejected(NotFoundError(TeamMissMessage(a.team)), true)
  {
  }

  /** The create branch: a fresh id, FirstMeeting stamped with the meeting,
      TeamId set to the resolved team, the name normalised and its alias key
      present, the meeting recorded, the federation data taken as given and
      every other athlete intact. */
  lemma ImportAthleteCreates(env: Env, teams: map<Id, Team>, docs: map<Id, Athlete>, nextId: Id,
                             a: Athlete, meet: string, tid: Id)
    requires WellKeyed(docs, nextId)
    requires HasTeam(a) && ResolveAthlete(env, docs, a).None?
    requires ResolveTeam(env, teams, a.team) == Some(tid)
    ensures var p := PlanImport(env, teams, docs, nextId, a, meet);
      var f := p.final[nextId];
      && p.Planned? && p.created && p.id == nextId && nextId !in docs && p.next == nextId + 1
      && p.final.Keys == docs.Keys + {nextId}
      && (forall j :: j in docs ==> p.final[j] == docs[j])
      && f.id == nextId && f.teamId == tid && f.team == ZeroTeam
      && f.firstMeeting == meet && meet in f.participation
      && Aliasify(f.name) in f.alias
      && f.dsvId == a.dsvId && f.year == a.year && f.gender == a.gender
  {
    var doc := NewAthlete(env, a, meet, tid, nextId);
    AppendUniqueContains(doc.participation, meet);
  }

  /** The merge branch never overwrites a populated federation id or
      gender: they are filled only where empty. Year, FirstMeeting and the
      earlier aliases are kept, the name stays unless it has the comma form,
      first and last name stay unless the merge takes them from a comma name,
      the meeting is recorded, every other athlete is intact, and nothing is
      written for the merge unless a field was filled. */
  lemma ImportAthleteMergeNeverOverwrites(env: Env, teams: map<Id, Team>, docs: map<Id, Athlete>, nextId: Id,
                                          a: Athlete, meet: string, k: Id)
    requires WellKeyed(docs, nextId)
    requires HasTeam(a) && ResolveAthlete(env, docs, a) == Some(k)
    ensures var p := PlanImport(env, teams, docs, nextId, a, meet);
      var e := docs[k];
      var f := p.final[k];
      var m := MergeAthlete(env, Joined(e, teams), a);
      && p.Planned? && !p.created && p.id == k && p.next == nextId
      && p.final.Keys == docs.Keys
      && (forall j :: j in docs && j != k ==> p.final[j] == docs[j])
      && f.id == k && f.team == ZeroTeam
      && f.dsvId == Fill(e.dsvId, a.dsvId, 0)
      && f.gender == Fill(e.gender, a.gender, "")
      && f.year == e.year && f.firstMeeting == e.firstMeeting
      && |e.alias| <= |f.alias| && f.alias[..|e.alias|] == e.alias
      && f.participation == AppendUnique(e.participation, meet)
      && (!env.extractNames(e.name).hasComma ==> f.name == e.name)
      && (!TakesNames(env, Joined(e, teams), a) && !env.extractNames(e.name).hasComma ==>
            f.firstname == e.firstname && f.lastname == e.lastname)
      && (!m.changed ==> p.mid == docs)
  {
  }

  /** First and last name are not filled one at a time: when either is
      empty and the incoming name has the comma form, both are replaced from
      it, so a populated first (or last) name is overwritten. */
  lemma ImportAthleteMergeReplacesBothNames(env: Env, teams: map<Id, Team>, docs: map<Id, Athlete>, nextId: Id,
                                            a: Athlete, meet: string, k: Id)
    requires WellKeyed(docs, nextId)
    requires HasTeam(a) && ResolveAthlete(env, docs, a) == Some(k)
    requires TakesNames(env, Joined(docs[k], teams), a) && !env.extractNames(docs[k].name).hasComma
    ensures var p := PlanImport(env, teams, docs, nextId, a, meet);
      var e := docs[k];
      var n := env.extractNames(a.name);
      && p.Planned? && p.final[k].firstname == n.first && p.final[k].lastname == n.last
      && (e.firstname != "" && n.first != e.firstname ==> p.final[k].firstname != e.firstname)
      && (e.lastname != "" && n.last != e.lastname ==> p.final[k].lastname != e.lastname)
  {
  }

  /** The merge branch writes back the TeamId of the team the read joined:
      an athlete whose team no longer exists loses its TeamId when a field
      is filled in, and keeps it otherwise. */
  lemma ImportAthleteMergeResetsOrphanTeam(env: Env, teams: map<Id, Team>, teamsNextId: Id, docs: map<Id, Athlete>,
                                           nextId: Id, a: Athlete, meet: string, k: Id)
    requires WellKeyed(docs, nextId) && TeamService.WellKeyed(teams, teamsNextId)
    requires HasTeam(a) && ResolveAthlete(env, docs, a) == Some(k)
    ensures var p := PlanImport(env, teams, docs, nextId, a, meet);
      var e := docs[k];
      var m := MergeAthlete(env, Joined(e, teams), a);
      && (m.changed && e.teamId in teams ==> p.final[k].teamId == e.teamId)
      && (m.changed && e.teamId !in teams ==> p.final[k].teamId == NilId)
      && (!m.changed ==> p.final[k].teamId == e.teamId)
  {
  }

  /** The athlete collection; it reads the team collection for the team
      join and for resolving the team of a new athlete. */
  class AthleteStore {
    var docs: map<Id, Athlete>
    var nextId: Id
    const teams: TeamService.TeamStore
    const env: Env

    ghost predicate Valid()
      reads this
    {
      && NilId < nextId
      && (forall k :: k in docs ==> NilId < k < nextId && docs[k].id == k && docs[k].team == ZeroTeam)
      && teams.env == env
    }

    constructor (teams: TeamService.TeamStore, env: Env)
      requires teams.env == env
      ensures Valid()
      ensures docs == map[] && this.teams == teams && this.env == env
    {
      docs := map[];
      nextId := 1;
      this.teams := teams;
      this.env := env;
    }

    /** A name-sorted find that keeps the first hit and attaches its team;
        the driver may fail. */
    method Find(p: (Id, Athlete) -> bool) returns (r: Lookup<Athlete>)
      ensures r.Failure? || r == AthleteQuery(docs, teams.docs, p)
    {
      var fail: bool := *;
      if fail {
        return Failure;
      }
      var k := FindFirst(docs, AthleteName, p);
      match k
      case None => r := NotFound;
      case Some(k) => r := Found(Joined(docs[k], teams.docs));
    }

    /** InsertOne under a fresh id; the driver may fail. */
    method Insert(a: Athlete) returns (r: Result<Id>)
      requires Valid()
      modifies this
      ensures Valid()
      ensures r.Ok? ==> r.value == old(nextId) && r.value !in old(docs)
      ensures r.Ok? ==> docs == old(docs)[r.value := Stored(a).(id := r.value)] && nextId == old(nextId) + 1
      ensures r.Err? ==> r.error == StorageFailure && docs == old(docs) && nextId == old(nextId)
    {
      var fail: bool := *;
      if fail {
        return Err(StorageFailure);
      }
      r := Ok(nextId);
      docs := docs[nextId := Stored(a).(id := nextId)];
      nextId := nextId + 1;
    }

    /** ReplaceOne by id: replaces the record if one has that id, does
        nothing (and reports no error) otherwise; the driver may fail. */
    method Replace(a: Athlete) returns (ok: bool)
      requires Valid()
      modifies this`docs
      ensures Valid()
      ensures ok && a.id in old(docs) ==> docs == old(docs)[a.id := Stored(a)]
      ensures !ok || a.id !in old(docs) ==> docs == old(docs)
    {
      ok := *;
      if ok && a.id in docs {
        docs := docs[a.id := Stored(a)];
      }
    }

    method GetAthleteById(id: Id) returns (r: Lookup<Athlete>)
      requires Valid()
      ensures r.Failure? || r == AthleteQuery(docs, teams.docs, ById(id))
      ensures r.Found? ==> id in docs && r.value == Joined(docs[id], teams.docs)
      ensures r.NotFound? ==> id !in docs
    {
      r := Find(ById(id));
      AthleteQueryById(docs, teams.docs, id);
    }

    method GetAthleteByDsvId(dsvId: int) returns (r: Lookup<Athlete>)
      ensures r.Failure? || r == AthleteQuery(docs, teams.docs, ByDsvId(dsvId))
    {
      r := Find(ByDsvId(dsvId));
    }

    method GetAthleteByNameAndYear(name: string, year: int) returns (r: Lookup<Athlete>)
      ensures r.Failure? || r == AthleteQuery(docs, teams.docs, ByNameAndYear(env, name, year))
    {
      r := Find(ByNameAndYear(env, name, year));
    }

    /** The normalisation steps shared by AddAthlete and UpdateAthlete,
        step by step; `Normalize` is their specification. */
    method Prepare(a: Athlete) returns (r: Athlete)
      ensures r == Normalize(env, a)
    {
      r := a.(teamId := a.team.id);
      var n := env.extractNames(r.name);
      if n.hasComma {
        r := r.(name := n.first + " " + n.last, firstname := n.first, lastname := n.last);
      }
      var alias := AppendWithoutDuplicates(r.alias, Aliasify(r.name));
      r := r.(alias := alias);
    }

    /** Normalises and inserts the athlete, and reads it back. */
    method AddAthlete(a: Athlete) returns (res: Result<Athlete>)
      requires Valid()
      modifies this
      ensures Valid()
      ensures res.Ok? ==> docs == old(docs)[old(nextId) := Added(env, a, old(nextId))]
      ensures res.Ok? ==> nextId == old(nextId) + 1 && res.value == Joined(docs[old(nextId)], teams.docs)
      ensures res.Err? ==>
        || (docs == old(docs) && nextId == old(nextId))
        || (docs == old(docs)[old(nextId) := Added(env, a, old(nextId))] && nextId == old(nextId) + 1)
    {
      var athlete := Prepare(a);
      var inserted := Insert(athlete);
      if inserted.Err? {
        return Err(inserted.error);
      }
      var r := GetAthleteById(inserted.value);
      if !r.Found? {
        return Err(LookupError(r, NoIdMatch));
      }
      res := Ok(r.value);
    }

    /** Normalises the athlete and replaces the record with its id, and
        reads it back. */
    method UpdateAthlete(a: Athlete) returns (res: Result<Athlete>)
      requires Valid()
      modifies this`docs
      ensures Valid()
      ensures a.id !in old(docs) ==> res.Err? && docs == old(docs)
      ensures res.Ok? ==> a.id in old(docs) && docs == old(docs)[a.id := Stored(Normalize(env, a))]
      ensures res.Ok? ==> res.value == Joined(docs[a.id], teams.docs)
      ensures docs == old(docs) || (a.id in old(docs) && docs == old(docs)[a.id := Stored(Normalize(env, a))])
    {
      var athlete := Prepare(a);
      var ok := Replace(athlete);
      if !ok {
        return Err(StorageFailure);
      }
      var back := GetAthleteById(athlete.id);
      if !back.Found? {
        return Err(LookupError(back, NoIdMatch));
      }
      res := Ok(back.value);
    }

    /** Adds the meeting to the participation set of the athlete `id`. */
    method AddParticipation(id: Id, meet: string) returns (res: Result<Athlete>)
      requires Valid()
      modifies this`docs
      ensures Valid()
      ensures id !in old(docs) ==> res.Err? && docs == old(docs)
      ensures res.Ok? ==> id in old(docs) && docs == old(docs)[id := WithParticipation(old(docs)[id], meet)]
      ensures res.Ok? ==> res.value == Joined(docs[id], teams.docs)
      ensures docs == old(docs) || (id in old(docs) && docs == old(docs)[id := WithParticipation(old(docs)[id], meet)])
    {
      var r := GetAthleteById(id);
      if !r.Found? {
        return Err(LookupError(r, NoIdMatch));
      }
      var athlete := r.value;
      var participation := AppendWithoutDuplicates(athlete.participation, meet);
      athlete := athlete.(participation := participation);
      var ok := Replace(athlete);
      if !ok {
        return Err(StorageFailure);
      }
      var back := GetAthleteById(athlete.id);
      if !back.Found? {
        return Err(LookupError(back, NoIdMatch));
      }
      res := Ok(back.value);
    }

    /** Identity resolution of ImportAthlete: the lookup by federation id
        when the incoming one is non-zero, then, if that finds nothing, the
        lookup by name and year; a failing lookup ends the resolution. */
    method Resolve(a: Athlete) returns (r: Lookup<Athlete>)
      requires Valid()
      ensures r.Found? ==> ResolveAthlete(env, docs, a) == Some(r.value.id)
      ensures r.Found? ==> r.value.id in docs && r.value == Joined(docs[r.value.id], teams.docs)
      ensures r.NotFound? ==> ResolveAthlete(env, docs, a) == None
    {
      r := NotFound;
      if a.dsvId != 0 {
        r := GetAthleteByDsvId(a.dsvId);
        if r.Found? {
          assert r == AthleteQuery(docs, teams.docs, ByDsvId(a.dsvId));
        }
      }
      if r.NotFound? {
        r := GetAthleteByNameAndYear(a.name, a.year);
      }
    }

    /** The merge branch of ImportAthlete on the athlete found: fill in the
        empty fields and write the athlete back only if something changed. */
    method MergeExisting(existing: Athlete, a: Athlete) returns (res: Result<Id>)
      requires Valid()
      requires existing.id in docs && existing == Joined(docs[existing.id], teams.docs)
      modifies this`docs
      ensures Valid()
      ensures var m := MergeAthlete(env, existing, a);
        var mid := if m.changed then old(docs)[existing.id := Stored(Normalize(env, m.athlete))] else old(docs);
        && (res.Ok? ==> res.value == existing.id && docs == mid)
        && (res.Err? ==> docs == old(docs) || docs == mid)
    {
      var m := MergeAthlete(env, existing, a);
      if m.changed {
        var updated := UpdateAthlete(m.athlete);
        if updated.Err? {
          return Err(updated.error);
        }
        return Ok(updated.value.id);
      }
      return Ok(existing.id);
    }

    /** The create branch of ImportAthlete: stamp the first meeting, resolve
        the team (by its federation id if non-zero, else by name), and add
        the athlete to that team. */
    method CreateNew(a: Athlete, meet: string) returns (res: Result<Id>)
      requires Valid() && teams.Valid()
      modifies this
      ensures Valid()
      ensures ResolveTeam(env, teams.docs, a.team).None? ==> res.Err? && docs == old(docs) && nextId == old(nextId)
      ensures var tid := ResolveTeam(env, teams.docs, a.team);
        res.Ok? ==>
          && tid.Some? && res.value == old(nextId) && nextId == old(nextId) + 1
          && docs == old(docs)[old(nextId) := NewAthlete(env, a, meet, tid.value, old(nextId))]
      ensures var tid := ResolveTeam(env, teams.docs, a.team);
        res.Err? ==>
          || (docs == old(docs) && nextId == old(nextId))
          || (&& tid.Some? && nextId == old(nextId) + 1
              && docs == old(docs)[old(nextId) := NewAthlete(env, a, meet, tid.value, old(nextId))])
    {
      var stamped := a.(firstMeeting := meet);
      var t: Lookup<Team>;
      if a.team.dsvId != 0 {
        t := teams.GetTeamByDsvId(a.team.dsvId);
      } else {
        t := teams.GetTeamByName(a.team.name);
      }
      if !t.Found? {
        return Err(LookupError(t, TeamMissMessage(a.team)));
      }
      stamped := stamped.(team := stamped.team.(id := t.value.id));
      var added := AddAthlete(stamped);
      if added.Err? {
        return Err(added.error);
      }
      return Ok(added.value.id);
    }

    /** Imports an athlete seen in meeting `meet`: resolves it by federation
        id, then by name and year; merges into the athlete found, or creates
        it in the team it names; then records the participation. */
    method ImportAthlete(a: Athlete, meet: string) returns (res: Result<Athlete>, created: bool)
      requires Valid() && teams.Valid()
      modifies this
      ensures Valid()
      ensures a.team.name == "" && a.team.dsvId == 0 ==>
        res == Err(InvalidArgument(NoTeamSet)) && !created && docs == old(docs) && nextId == old(nextId)
      ensures var p := PlanImport(env, teams.docs, old(docs), old(nextId), a, meet);
        res.Ok? ==>
          && p.Planned? && docs == p.final && nextId == p.next && created == p.created
          && res.value == Joined(p.final[p.id], teams.docs)
      ensures var p := PlanImport(env, teams.docs, old(docs), old(nextId), a, meet);
        p.Rejected? ==> res.Err? && docs == old(docs) && nextId == old(nextId) && (created ==> p.created)
      ensures var p := PlanImport(env, teams.docs, old(docs), old(nextId), a, meet);
        p.Planned? && res.Err? ==>
          && (created ==> p.created)
          && (|| (docs == old(docs) && nextId == old(nextId))
              || (docs == p.mid && nextId == p.next)
              || (docs == p.final && nextId == p.next))
    {
      if a.team.name == "" && a.team.dsvId == 0 {
        return Err(InvalidArgument(NoTeamSet)), false;
      }
      var existing := Resolve(a);
      if existing.Failure? {
        return Err(StorageFailure), false;
      }
      var found := existing.Found?;
      var id: Id;
      if found {
        var merged := MergeExisting(existing.value, a);
        if merged.Err? {
          return Err(merged.error), false;
        }
        id := merged.value;
      } else {
        var made := CreateNew(a, meet);
        if made.Err? {
          return Err(made.error), true;
        }
        id := made.value;
      }
      var recorded := AddParticipation(id, meet);
      if recorded.Err? {
        return Err(recorded.error), !found;
      }
      return recorded, !found;
    }
  }
}
