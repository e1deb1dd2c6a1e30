/** The dashboard's derived data (social-versity/src/pages/Dashboard.jsx): the greeting, the
    first two events and the first two groups the user has not joined. */
module Dashboard {
  import Lists
  import Groups

  datatype Event = Event(
    id: string,
    title: string,
    date: string,
    location: string,
    organizer: string,
    category: string,
    attendees: int)

  /** `events.slice(0, 2)`: the first two events, or all of them when there are fewer. */
  function UpcomingEvents(events: seq<Event>): (r: seq<Event>)
    ensures |r| == if |events| < 2 then |events| else 2
    ensures r <= events
  {
    Lists.Take(events, 2)
  }

  function NotJoined(): Groups.Group -> bool {
    (g: Groups.Group) => !g.isMember
  }

  /** `groups.filter(g => !g.isMember).slice(0, 2)`. */
  function RecommendedGroups(groups: seq<Groups.Group>): (r: seq<Groups.Group>)
    ensures |r| <= 2
    ensures forall g :: g in r ==> g in groups && !g.isMember
    ensures r <= Lists.Filter(groups, NotJoined())
  {
    Lists.Take(Lists.Filter(groups, NotJoined()), 2)
  }

  /** The recommendations keep the order of the group list, and there are two of them unless
      fewer than two groups are unjoined. */
  lemma RecommendationsOrdered(groups: seq<Groups.Group>)
    ensures Lists.IsSubsequence(RecommendedGroups(groups), groups)
    ensures |RecommendedGroups(groups)| == 2 || RecommendedGroups(groups) == Lists.Filter(groups, NotJoined())
  {
    var unjoined := Lists.Filter(groups, NotJoined());
    Lists.PrefixIsSubsequence(RecommendedGroups(groups), unjoined);
    Lists.SubsequenceTransitive(RecommendedGroups(groups), unjoined, groups);
  }

  /** `currentUser.name.split(' ')[0]`: the text before the first space, or the whole name
      when it has no space. */
  function FirstName(name: string): (r: string)
    ensures r <= name
    ensures ' ' !in r
    ensures r == name || name[|r|] == ' '
  {
    if name == [] || name[0] == ' ' then [] else [name[0]] + FirstName(name[1..])
  }

  lemma GreetsJohn()
    ensures FirstName("John Doe") == "John"
  {
  }
}
