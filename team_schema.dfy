/** The Team document (models/Team.js): a required, unique, trimmed name, a
    required lead, and a member list that may hold at most five users. */
module TeamSchema {
  import opened Base
  import Text

  /** The `members` validator's bound. */
  const MaxMembers: nat := 5

  datatype Team = Team(
    id: Id,
    teamName: string,
    teamLead: Id,
    members: seq<Id>,
    createdAt: int)

  /** A new Team document as stored: the name trimmed. */
  function NewTeam(id: Id, teamName: string, lead: Id, members: seq<Id>, now: int): (t: Team)
    ensures t.id == id && t.teamLead == lead && t.members == members && t.createdAt == now
    ensures t.teamName == Text.Trim(teamName)
  {
    Team(id, Text.Trim(teamName), lead, members, now)
  }

  /** What `save()` checks of a Team: the name is present and the member list
      has at most five entries. */
  predicate ValidTeam(t: Team)
  {
    |t.teamName| > 0 && |t.members| <= MaxMembers
  }

  /** A new team passes `save()`'s checks exactly when its name has a
      non-space character and it lists at most five members. */
  lemma NewTeamValid(id: Id, name: string, lead: Id, members: seq<Id>, now: int)
    ensures ValidTeam(NewTeam(id, name, lead, members, now)) <==> !Text.AllSpace(name) && |members| <= MaxMembers
  {
    Text.TrimEmptyIffBlank(name);
  }

  /** The unique index on `teamName`. */
  predicate UniqueNames(teams: seq<Team>)
  {
    forall i, j :: 0 <= i < j < |teams| ==> teams[i].teamName != teams[j].teamName
  }

  /** A name that is all white space can never be stored: it trims to nothing. */
  lemma BlankNameRejected(id: Id, name: string, lead: Id, members: seq<Id>, now: int)
    requires Text.AllSpace(name)
    ensures !ValidTeam(NewTeam(id, name, lead, members, now))
  {
    Text.TrimEmptyIffBlank(name);
  }
}
