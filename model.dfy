/** The records the services store, as the services read and write them,
    and the two collaborators whose code is not part of this model. */
module Model {
  import opened Store

  /** A team document. Address, contact, website, logo and colour set are
      copied through untouched and are not represented. */
  datatype Team = Team(
    id: Id,
    name: string,
    alias: seq<string>,
    country: string,
    dsvId: int,
    stateId: int,
    firstMeeting: string,
    participation: seq<string>)

  /** The zero team: what an athlete carries when no team is attached. */
  const ZeroTeam := Team(NilId, "", [], "", 0, 0, "", [])

  /** An athlete. `team` is the embedded team, which is never stored: the
      stored document keeps only `teamId`, and reads attach the team again. */
  datatype Athlete = Athlete(
    id: Id,
    name: string,
    firstname: string,
    lastname: string,
    year: int,
    dsvId: int,
    gender: string,
    alias: seq<string>,
    teamId: Id,
    team: Team,
    firstMeeting: string,
    participation: seq<string>)

  /** Result of splitting a "Last, First" name. */
  datatype Names = Names(hasComma: bool, first: string, last: string)

  /** The collaborators the services call without this model seeing their
      code: `regex(pattern, text)` is the store's case-insensitive regular
      expression match, `extractNames` the comma-name splitter. */
  datatype Env = Env(regex: (string, string) -> bool, extractNames: string -> Names)

  /** The one merge rule of both importers: take the incoming value only
      when the current one is empty and the incoming one is not. */
  function Fill<T(==)>(current: T, incoming: T, empty: T): (r: T)
    ensures current != empty ==> r == current
    ensures current == empty ==> r == incoming
    ensures r != current <==> current == empty && incoming != empty
  {
    if current == empty && incoming != empty then incoming else current
  }

  /** A string field stored with omitempty matches a regex only when present. */
  predicate FieldMatches(env: Env, pattern: string, text: string)
  {
    text != "" && env.regex(pattern, text)
  }

  /** Some element of an alias list matches the pattern. */
  predicate AnyAliasMatches(env: Env, pattern: string, alias: seq<string>)
  {
    exists i :: 0 <= i < |alias| && env.regex(pattern, alias[i])
  }
}
