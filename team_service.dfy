/** The team collection: lookups by id, federation id and name, creation,
    replacement, participation tracking, and the create-or-merge import of a
    team seen in a meeting feed. */
module TeamService {
  import opened Store
  import opened Model
  import opened Service

  const NoIdMatch := "no entry with given id found"
  const NoNameMatch := "no team with given name found"

  /** The sort key of team finds. */
  function TeamName(t: Team): string
  {
    t.name
  }

  /** Filter `{_id: id}`. */
  function ById(id: Id): (Id, Team) -> bool
  {
    (k: Id, t: Team) => k == id
  }

  /** Filter `{dsv_id: dsvId}`; a zero federation id is not stored, so no
      record matches zero. */
  function ByDsvId(dsvId: int): (Id, Team) -> bool
  {
    (k: Id, t: Team) => t.dsvId != 0 && t.dsvId == dsvId
  }

  /** Filter of the name lookup: the name as a pattern against the name and
      every alias, or the alias key of the name against every alias. */
  function ByName(env: Env, name: string): (Id, Team) -> bool
  {
    (k: Id, t: Team) =>
      || FieldMatches(env, name, t.name)
      || AnyAliasMatches(env, name, t.alias)
      || AnyAliasMatches(env, Aliasify(name), t.alias)
  }

  /** What a single-team lookup with filter `p` returns when the store
      answers: the first hit in name order, or NotFound. */
  ghost function TeamQuery(docs: map<Id, Team>, p: (Id, Team) -> bool): Lookup<Team>
  {
    match First(docs, TeamName, p)
    case Some(k) => Found(docs[k])
    case None => NotFound
  }

  /** The team a lookup returns is the first hit in name order, and there is
      none exactly when no team matches. */
  lemma TeamQueryIsFirstHit(docs: map<Id, Team>, p: (Id, Team) -> bool)
    ensures TeamQuery(docs, p).NotFound? <==> forall j :: !Matching(docs, p, j)
    ensures TeamQuery(docs, p).Found? ==>
      exists k :: IsFirst(docs, TeamName, p, k) && TeamQuery(docs, p).value == docs[k]
    ensures !TeamQuery(docs, p).Failure?
  {
  }

  /** A lookup by id finds exactly the record stored under that id. */
  lemma {:induction false} TeamQueryById(docs: map<Id, Team>, id: Id)
    ensures TeamQuery(docs, ById(id)) == if id in docs then Found(docs[id]) else NotFound
  {
    if id in docs {
      FirstIsUnique(docs, TeamName, ById(id), id);
    }
  }

  /** The document AddTeam stores under a fresh id: the alias key of the name
      is appended to the aliases without checking for a duplicate. */
  function Added(t: Team, id: Id): Team
  {
    t.(id := id, alias := t.alias + [Aliasify(t.name)])
  }

  /** The document UpdateTeam stores: the alias key is added only if absent. */
  function Updated(t: Team): Team
  {
    t.(alias := AppendUnique(t.alias, Aliasify(t.name)))
  }

  /** The team with the meeting added to its participation set. */
  function WithParticipation(t: Team, meet: string): Team
  {
    t.(participation := AppendUnique(t.participation, meet))
  }

  datatype TeamMerge = TeamMerge(team: Team, changed: bool)

  /** The merge step of ImportTeam: federation id, state id and country are
      filled in when empty; `changed` reports whether an update is due. */
  function MergeTeam(existing: Team, incoming: Team): (m: TeamMerge)
    ensures existing.dsvId != 0 ==> m.team.dsvId == existing.dsvId
    ensures existing.dsvId == 0 ==> m.team.dsvId == incoming.dsvId
    ensures existing.stateId != 0 ==> m.team.stateId == existing.stateId
    ensures existing.stateId == 0 ==> m.team.stateId == incoming.stateId
    ensures existing.country != "" ==> m.team.country == existing.country
    ensures existing.country == "" ==> m.team.country == incoming.country
    ensures m.team == existing.(dsvId := m.team.dsvId, stateId := m.team.stateId, country := m.team.country)
    ensures m.changed <==> m.team != existing
  {
    var changed :=
      || (existing.dsvId == 0 && incoming.dsvId != 0)
      || (existing.stateId == 0 && incoming.stateId != 0)
      || (existing.country == "" && incoming.country != "");
    TeamMerge(existing.(dsvId := Fill(existing.dsvId, incoming.dsvId, 0),
                        stateId := Fill(existing.stateId, incoming.stateId, 0),
                        country := Fill(existing.country, incoming.country, "")),
              changed)
  }

  /** The writes of a successful ImportTeam: the team chosen or created,
      whether it was created, the collection after the create or merge step
      (`mid`), the next free id, and the collection after participation is
      recorded (`final`). */
  datatype TeamPlan = TeamPlan(id: Id, created: bool, mid: map<Id, Team>, next: Id, final: map<Id, Team>)

  ghost function PlanTeamImport(env: Env, docs: map<Id, Team>, nextId: Id, t: Team, meet: string): TeamPlan
  {
    match First(docs, TeamName, ByName(env, t.name))
    case None =>
      var doc := Added(t.(firstMeeting := meet), nextId);
      var mid := docs[nextId := doc];
      TeamPlan(nextId, true, mid, nextId + 1, mid[nextId := WithParticipation(doc, meet)])
    case Some(k) =>
      var m := MergeTeam(docs[k], t);
      var mid := if m.changed then docs[k := Updated(m.team)] else docs;
      TeamPlan(k, false, mid, nextId, mid[k := WithParticipation(mid[k], meet)])
  }

  /** AddTeam grows the alias list by exactly one, even when the alias key
      is already present, in which case the list then holds it twice. */
  lemma AddedAliasGrowsByOne(t: Team, id: Id)
    ensures |Added(t, id).alias| == |t.alias| + 1
    ensures Added(t, id).alias[..|t.alias|] == t.alias
    ensures Added(t, id).alias[|t.alias|] == Aliasify(t.name)
    ensures Aliasify(t.name) in t.alias ==> !NoDuplicates(Added(t, id).alias)
  {
    var a := Added(t, id).alias;
    if Aliasify(t.name) in t.alias {
      var i :| 0 <= i < |t.alias| && t.alias[i] == Aliasify(t.name);
      assert a[i] == a[|t.alias|];
    }
  }

  /** UpdateTeam stores an alias list holding the alias key of the name,
      adds no duplicate, and keeps every earlier alias in place. */
  lemma UpdatedAliasInvariant(t: Team)
    ensures Aliasify(t.name) in Updated(t).alias
    ensures NoDuplicates(t.alias) ==> NoDuplicates(Updated(t).alias)
    ensures Updated(t).alias[..|t.alias|] == t.alias
    ensures |Updated(t).alias| <= |t.alias| + 1
    ensures Updated(Updated(t)) == Updated(t)
  {
    AppendUniqueContains(t.alias, Aliasify(t.name));
    AppendUniqueNoDuplicates(t.alias, Aliasify(t.name));
    AppendUniqueIdempotent(t.alias, Aliasify(t.name));
  }

  /** Recording a participation adds the meeting once, changes no other
      field, and recording it again changes nothing. */
  lemma TeamParticipationIdempotent(t: Team, meet: string)
    ensures meet in WithParticipation(t, meet).participation
    ensures NoDuplicates(t.participation) ==> NoDuplicates(WithParticipation(t, meet).participation)
    ensures WithParticipation(t, meet) == t.(participation := WithParticipation(t, meet).participation)
    ensures WithParticipation(WithParticipation(t, meet), meet) == WithParticipation(t, meet)
  {
    AppendUniqueContains(t.participation, meet);
    AppendUniqueNoDuplicates(t.participation, meet);
    AppendUniqueIdempotent(t.participation, meet);
  }

  /** Every stored team sits under its own id, below the next free id. */
  ghost predicate WellKeyed(docs: map<Id, Team>, nextId: Id)
  {
    forall k :: k in docs ==> NilId < k < nextId && docs[k].id == k
  }

  /** ImportTeam creates a team exactly when the name lookup finds none. */
  lemma ImportTeamCreatesIffUnknown(env: Env, docs: map<Id, Team>, nextId: Id, t: Team, meet: string)
    ensures PlanTeamImport(env, docs, nextId, t, meet).created
      <==> forall j :: !Matching(docs, ByName(env, t.name), j)
  {
  }

  /** The create branch: a fresh id, FirstMeeting stamped with the meeting,
      the alias key appended, participation recorded, other teams intact. */
  lemma ImportTeamCreates(env: Env, docs: map<Id, Team>, nextId: Id, t: Team, meet: string)
    requires WellKeyed(docs, nextId)
    requires forall j :: !Matching(docs, ByName(env, t.name), j)
    ensures var p := PlanTeamImport(env, docs, nextId, t, meet);
      && p.created && p.id == nextId && p.id !in docs && p.next == nextId + 1
      && p.final.Keys == docs.Keys + {p.id}
      && (forall k :: k in docs ==> p.final[k] == docs[k])
      && p.final[p.id].firstMeeting == meet
      && p.final[p.id].participation == AppendUnique(t.participation, meet)
      && p.final[p.id].alias == t.alias + [Aliasify(t.name)]
      && p.final[p.id] == t.(id := p.id, firstMeeting := meet, alias := p.final[p.id].alias,
                             participation := p.final[p.id].participation)
  {
  }

  /** The merge branch: populated federation id, state id and country are
      never overwritten, empty ones take the incoming value, FirstMeeting
      and name are kept, the meeting is recorded, other teams are intact. */
  lemma ImportTeamMerges(env: Env, docs: map<Id, Team>, nextId: Id, t: Team, meet: string, k: Id)
    requires WellKeyed(docs, nextId)
    requires IsFirst(docs, TeamName, ByName(env, t.name), k)
    ensures var p := PlanTeamImport(env, docs, nextId, t, meet);
      var e := docs[k];
      var f := p.final[k];
      && !p.created && p.id == k && p.next == nextId
      && p.final.Keys == docs.Keys
      && (forall j :: j in docs && j != k ==> p.final[j] == docs[j])
      && f.dsvId == Fill(e.dsvId, t.dsvId, 0)
      && f.stateId == Fill(e.stateId, t.stateId, 0)
      && f.country == Fill(e.country, t.country, "")
      && f.id == k && f.name == e.name && f.firstMeeting == e.firstMeeting
      && f.participation == AppendUnique(e.participation, meet)
      && (p.mid == docs <==> !MergeTeam(e, t).changed)
  {
    FirstIsUnique(docs, TeamName, ByName(env, t.name), k);
    var m := MergeTeam(docs[k], t);
    if m.changed {
      assert Updated(m.team) != docs[k];
      assert (docs[k := Updated(m.team)])[k] != docs[k];
    }
  }

  /** The team collection. */
  class TeamStore {
    var docs: map<Id, Team>
    var nextId: Id
    const env: Env

    ghost predicate Valid()
      reads this
    {
      && NilId < nextId
      && forall k :: k in docs ==> NilId < k < nextId && docs[k].id == k
    }

    constructor (env: Env)
      ensures Valid()
      ensures docs == map[] && this.env == env
    {
      docs := map[];
      nextId := 1;
      this.env := env;
    }

    /** A name-sorted find that keeps the first hit; the driver may fail. */
    method Find(p: (Id, Team) -> bool) returns (r: Lookup<Team>)
      ensures r.Failure? || r == TeamQuery(docs, p)
    {
      var fail: bool := *;
      if fail {
        return Failure;
      }
      var k := FindFirst(docs, TeamName, p);
      match k
      case None => r := NotFound;
      case Some(k) => r := Found(docs[k]);
    }

    /** InsertOne under a fresh id; the driver may fail. */
    method Insert(t: Team) returns (r: Result<Id>)
      requires Valid()
      modifies this
      ensures Valid()
      ensures r.Ok? ==> r.value == old(nextId) && r.value !in old(docs)
      ensures r.Ok? ==> docs == old(docs)[r.value := t.(id := r.value)] && nextId == old(nextId) + 1
      ensures r.Err? ==> r.error == StorageFailure && docs == old(docs) && nextId == old(nextId)
    {
      var fail: bool := *;
      if fail {
        return Err(StorageFailure);
      }
      r := Ok(nextId);
      docs := docs[nextId := t.(id := nextId)];
      nextId := nextId + 1;
    }

    /** ReplaceOne by id: replaces the record if one has that id, does
        nothing (and reports no error) otherwise; the driver may fail. */
    method Replace(t: Team) returns (ok: bool)
      requires Valid()
      modifies this`docs
      ensures Valid()
      ensures ok && t.id in old(docs) ==> docs == old(docs)[t.id := t]
      ensures !ok || t.id !in old(docs) ==> docs == old(docs)
    {
      ok := *;
      if ok && t.id in docs {
        docs := docs[t.id := t];
      }
    }

    method GetTeamById(id: Id) returns (r: Lookup<Team>)
      requires Valid()
      ensures r.Failure? || r == TeamQuery(docs, ById(id))
      ensures r.Found? ==> id in docs && r.value == docs[id]
      ensures r.NotFound? ==> id !in docs
    {
      r := Find(ById(id));
      TeamQueryById(docs, id);
    }

    method GetTeamByDsvId(dsvId: int) returns (r: Lookup<Team>)
      ensures r.Failure? || r == TeamQuery(docs, ByDsvId(dsvId))
    {
      r := Find(ByDsvId(dsvId));
    }

    method GetTeamByName(name: string) returns (r: Lookup<Team>)
      ensures r.Failure? || r == TeamQuery(docs, ByName(env, name))
    {
      r := Find(ByName(env, name));
    }

    /** Inserts the team with the alias key of its name appended, and reads
        it back. */
    method AddTeam(t: Team) returns (res: Result<Team>)
      requires Valid()
      modifies this
      ensures Valid()
      ensures res.Ok? ==> docs == old(docs)[old(nextId) := Added(t, old(nextId))]
      ensures res.Ok? ==> nextId == old(nextId) + 1 && res.value == docs[old(nextId)]
      ensures res.Err? ==>
        || (docs == old(docs) && nextId == old(nextId))
        || (docs == old(docs)[old(nextId) := Added(t, old(nextId))] && nextId == old(nextId) + 1)
    {
      var stored := t.(alias := t.alias + [Aliasify(t.name)]);
      var inserted := Insert(stored);
      if inserted.Err? {
        return Err(inserted.error);
      }
      var r := GetTeamById(inserted.value);
      if !r.Found? {
        return Err(LookupError(r, NoIdMatch));
      }
      res := Ok(r.value);
    }

    /** Adds the meeting to the participation set of the team `id`. */
    method AddTeamParticipation(id: Id, meet: string) returns (res: Result<Team>)
      requires Valid()
      modifies this`docs
      ensures Valid()
      ensures id !in old(docs) ==> res.Err? && docs == old(docs)
      ensures res.Ok? ==> id in old(docs) && docs == old(docs)[id := WithParticipation(old(docs)[id], meet)]
      ensures res.Ok? ==> res.value == docs[id]
      ensures docs == old(docs) || (id in old(docs) && docs == old(docs)[id := WithParticipation(old(docs)[id], meet)])
    {
      var r := GetTeamById(id);
      if !r.Found? {
        return Err(LookupError(r, NoIdMatch));
      }
      var team := r.value;
      var participation := AppendWithoutDuplicates(team.participation, meet);
      team := team.(participation := participation);
      var ok := Replace(team);
      if !ok {
        return Err(StorageFailure);
      }
      var back := GetTeamById(team.id);
      if !back.Found? {
        return Err(LookupError(back, NoIdMatch));
      }
      res := Ok(back.value);
    }

    /** Replaces the stored team by `t`, with the alias key of its name added
        to its aliases unless already there, and reads it back. */
    method UpdateTeam(t: Team) returns (res: Result<Team>)
      requires Valid()
      modifies this`docs
      ensures Valid()
      ensures t.id !in old(docs) ==> res.Err? && docs == old(docs)
      ensures res.Ok? ==> t.id in old(docs) && docs == old(docs)[t.id := Updated(t)]
      ensures res.Ok? ==> res.value == Updated(t)
      ensures docs == old(docs) || (t.id in old(docs) && docs == old(docs)[t.id := Updated(t)])
    {
      var alias := AppendWithoutDuplicates(t.alias, Aliasify(t.name));
      var team := t.(alias := alias);
      var ok := Replace(team);
      if !ok {
        return Err(StorageFailure);
      }
      var back := GetTeamById(team.id);
      if !back.Found? {
        return Err(LookupError(back, NoIdMatch));
      }
      res := Ok(back.value);
    }

    /** Imports a team seen in meeting `meet`: creates it if the name lookup
        finds nothing, otherwise fills in its empty fields; in both cases the
        meeting is then added to its participation. */
    method ImportTeam(t: Team, meet: string) returns (res: Result<Team>, created: bool)
      requires Valid()
      modifies this
      ensures Valid()
      ensures var p := PlanTeamImport(env, old(docs), old(nextId), t, meet);
        res.Ok? ==> docs == p.final && nextId == p.next && created == p.created && res.value == p.final[p.id]
      ensures var p := PlanTeamImport(env, old(docs), old(nextId), t, meet);
        res.Err? ==>
          && !created
          && (|| (docs == old(docs) && nextId == old(nextId))
              || (docs == p.mid && nextId == p.next)
              || (docs == p.final && nextId == p.next))
    {
      ghost var plan := PlanTeamImport(env, docs, nextId, t, meet);
      var existing := GetTeamByName(t.name);
      match existing
      case Failure =>
        return Err(StorageFailure), false;
      case NotFound =>
        var stamped := t.(firstMeeting := meet);
        var added := AddTeam(stamped);
        if added.Err? {
          return Err(added.error), false;
        }
        var recorded := AddTeamParticipation(added.value.id, meet);
        if recorded.Err? {
          return Err(recorded.error), false;
        }
        return recorded, true;
      case Found(current) =>
        var m := MergeTeam(current, t);
        var merged := m.team;
        if m.changed {
          var updated := UpdateTeam(merged);
          if updated.Err? {
            return Err(updated.error), false;
          }
          merged := updated.value;
        }
        var recorded := AddTeamParticipation(merged.id, meet);
        if recorded.Err? {
          return Err(recorded.error), false;
        }
        return recorded, false;
    }
  }
}
