/** The Connect page (social-versity/src/pages/Connect.jsx): a searchable, tabbed directory of
    students and the list of students the user has connected with. */
module Connect {
  import Lists
  import Text
  import opened Wrappers
  import opened Toasts

  datatype Student = Student(
    id: int,
    name: string,
    major: string,
    year: string,
    courses: seq<string>,
    groups: seq<string>,
    interests: seq<string>,
    bio: string)

  /** The search box: the empty term, or a case-insensitive substring of the name, the major
      or one of the interests. */
  predicate MatchesSearch(s: Student, searchTerm: string) {
    var term := Text.Lower(searchTerm);
    searchTerm == ""
    || Text.Includes(Text.Lower(s.name), term)
    || Text.Includes(Text.Lower(s.major), term)
    || exists i | i in s.interests :: Text.Includes(Text.Lower(i), term)
  }

  /** The condition each filter tab adds to the search; an id that is none of the three
      named tabs adds nothing, like 'all'. */
  predicate MatchesTab(s: Student, activeFilter: string) {
    if activeFilter == "sameCourses" then exists c | c in s.courses :: c in ["CS 101", "MATH 201"]
    else if activeFilter == "sameMajor" then s.major == "Computer Science"
    else if activeFilter == "sameGroups" then exists g | g in s.groups :: g in ["Tech Club", "Gaming Society"]
    else true
  }

  function ShownBy(searchTerm: string, activeFilter: string): Student -> bool {
    s => MatchesSearch(s, searchTerm) && MatchesTab(s, activeFilter)
  }

  /** `filteredStudents`: the students the search and the active tab both admit, in directory
      order. */
  function FilteredStudents(students: seq<Student>, searchTerm: string, activeFilter: string): (r: seq<Student>)
    ensures forall s :: s in r ==> s in students && MatchesSearch(s, searchTerm) && MatchesTab(s, activeFilter)
    ensures forall s :: s in students && MatchesSearch(s, searchTerm) && MatchesTab(s, activeFilter) ==> s in r
    ensures forall s | s in students ::
      multiset(r)[s] == if MatchesSearch(s, searchTerm) && MatchesTab(s, activeFilter) then multiset(students)[s] else 0
    ensures Lists.IsSubsequence(r, students)
  {
    Lists.Filter(students, ShownBy(searchTerm, activeFilter))
  }

  /** An empty search term matches every student. */
  lemma EmptySearchMatchesAll(students: seq<Student>)
    ensures FilteredStudents(students, "", "all") == students
  {
    Lists.FilterKeepsAll(students, ShownBy("", "all"));
  }

  /** A student matches exactly when the term is empty or its lower-cased form occurs at some
      offset of the lower-cased name, the lower-cased major or some lower-cased interest. */
  lemma SearchIsCaseInsensitiveSubstring(s: Student, searchTerm: string)
    ensures MatchesSearch(s, searchTerm) <==>
      searchTerm == ""
      || Text.Occurs(Text.Lower(s.name), Text.Lower(searchTerm))
      || Text.Occurs(Text.Lower(s.major), Text.Lower(searchTerm))
      || exists i :: i in s.interests && Text.Occurs(Text.Lower(i), Text.Lower(searchTerm))
  {
    var term := Text.Lower(searchTerm);
    Text.IncludesIffOccurs(Text.Lower(s.name), term);
    Text.IncludesIffOccurs(Text.Lower(s.major), term);
    forall i | i in s.interests
      ensures Text.Includes(Text.Lower(i), term) <==> Text.Occurs(Text.Lower(i), term)
    {
      Text.IncludesIffOccurs(Text.Lower(i), term);
    }
  }

  /** Every tab shows an order-preserving subsequence of what 'all' shows for the same term. */
  lemma TabNarrowsAll(students: seq<Student>, searchTerm: string, activeFilter: string)
    ensures Lists.IsSubsequence(FilteredStudents(students, searchTerm, activeFilter),
                                FilteredStudents(students, searchTerm, "all"))
  {
    Lists.FilterMonotone(students, ShownBy(searchTerm, activeFilter), ShownBy(searchTerm, "all"));
  }

  /** An unrecognised tab id filters exactly like 'all'. */
  lemma UnknownTabIsAll(students: seq<Student>, searchTerm: string, activeFilter: string)
    requires activeFilter !in {"sameCourses", "sameMajor", "sameGroups"}
    ensures FilteredStudents(students, searchTerm, activeFilter) == FilteredStudents(students, searchTerm, "all")
  {
    Lists.FilterCongruent(students, ShownBy(searchTerm, activeFilter), ShownBy(searchTerm, "all"));
  }

  /** The three named tabs, each as the condition it adds. */
  lemma NamedTabs(s: Student)
    ensures MatchesTab(s, "sameMajor") <==> s.major == "Computer Science"
    ensures MatchesTab(s, "sameCourses") <==> "CS 101" in s.courses || "MATH 201" in s.courses
    ensures MatchesTab(s, "sameGroups") <==> "Tech Club" in s.groups || "Gaming Society" in s.groups
  {
  }

  /** The results label "{n} student{n !== 1 ? 's' : ''} found". */
  function ResultsNoun(count: nat): (r: string)
    ensures r == "students" <==> count != 1
    ensures r == "student" <==> count == 1
  {
    Text.Pluralize(count, "student")
  }

  class ConnectPage {
    var activeFilter: string
    var searchTerm: string
    var connectedStudents: seq<int>

    ghost predicate Valid()
      reads this
    {
      Lists.NoDup(connectedStudents)
    }

    constructor ()
      ensures Valid()
      ensures activeFilter == "all" && searchTerm == "" && connectedStudents == []
    {
      activeFilter := "all";
      searchTerm := "";
      connectedStudents := [];
    }

    /** The students the page lists for the current search box and tab; `students` is the
        directory the component holds as a constant. */
    function Filtered(students: seq<Student>): (r: seq<Student>)
      reads this
      ensures Lists.IsSubsequence(r, students)
      ensures forall s :: s in r ==> MatchesSearch(s, searchTerm) && MatchesTab(s, activeFilter)
      ensures forall s :: s in students && MatchesSearch(s, searchTerm) && MatchesTab(s, activeFilter) ==> s in r
      ensures forall s | s in students ::
        multiset(r)[s] == if MatchesSearch(s, searchTerm) && MatchesTab(s, activeFilter) then multiset(students)[s] else 0
    {
      FilteredStudents(students, searchTerm, activeFilter)
    }

    /** `handleConnect(student)`: disconnect a connected student (every occurrence of the id
        goes), connect anyone else at the end of the list; returns the toast it raises. */
    method HandleConnect(student: Student) returns (toast: ToastRequest)
      requires Valid()
      modifies this`connectedStudents
      ensures Valid()
      ensures connectedStudents == Lists.Toggle(old(connectedStudents), student.id)
      ensures student.id in old(connectedStudents) ==>
        toast == ToastRequest("Disconnected from " + student.name, Some("success"))
      ensures student.id !in old(connectedStudents) ==>
        toast == ToastRequest("Connected with " + student.name + "!", Some("success"))
    {
      Lists.ToggleKeepsNoDup(connectedStudents, student.id);
      if student.id in connectedStudents {
        connectedStudents := Lists.RemoveAll(connectedStudents, student.id);
        toast := ToastRequest("Disconnected from " + student.name, Some("success"));
      } else {
        connectedStudents := connectedStudents + [student.id];
        toast := ToastRequest("Connected with " + student.name + "!", Some("success"));
      }
    }
  }

  /** Connecting twice to the same student restores the list; disconnecting and reconnecting
      restores it only when that student was the most recent connection (otherwise the id
      moves to the end). */
  lemma ConnectTwice(connected: seq<int>, id: int)
    requires Lists.NoDup(connected)
    ensures Lists.Toggle(Lists.Toggle(connected, id), id) == connected <==>
      id !in connected || connected[|connected| - 1] == id
  {
    Lists.ToggleTwiceRestores(connected, id);
  }

  /** Disconnecting one of two connections and reconnecting it reorders the list. */
  lemma ReconnectReorders()
    ensures Lists.Toggle(Lists.Toggle([1, 2], 1), 1) == [2, 1]
  {
    assert Lists.RemoveAll([1, 2], 1) == [2] by {
      assert [1, 2][1..] == [2];
      assert [2][1..] == [];
    }
  }
}
