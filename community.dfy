/** The student community page: the three searchable lists and the study-group join button. */
module Community {
  import Seqs
  import Text

  datatype StudentGroup = StudentGroup(
    id: string,
    name: string,
    description: string,
    members: int,
    category: string,
    tags: seq<string>,
    image: string)

  datatype Ambassador = Ambassador(
    id: string,
    name: string,
    role: string,
    department: string,
    year: string,
    bio: string,
    avatarUrl: string)

  datatype StudyGroup = StudyGroup(
    id: string,
    subject: string,
    schedule: string,
    location: string,
    members: int,
    maxMembers: int,
    leader: string)

  /** The lower-cased `field` contains the lower-cased search term. */
  predicate Mentions(field: string, searchTerm: string)
  {
    Text.Contains(Text.Lower(field), Text.Lower(searchTerm))
  }

  /** A student group matches on its name, description or any tag, and on the category wildcard. */
  predicate GroupMatches(g: StudentGroup, searchTerm: string, selectedCategory: string)
  {
    && (Mentions(g.name, searchTerm) || Mentions(g.description, searchTerm)
        || exists i :: 0 <= i < |g.tags| && Mentions(g.tags[i], searchTerm))
    && (selectedCategory == "All Categories" || g.category == selectedCategory)
  }

  /** An ambassador matches on name, role, department or bio; the category is not consulted. */
  predicate AmbassadorMatches(a: Ambassador, searchTerm: string)
  {
    Mentions(a.name, searchTerm) || Mentions(a.role, searchTerm)
    || Mentions(a.department, searchTerm) || Mentions(a.bio, searchTerm)
  }

  /** A study group matches on its subject or leader only. */
  predicate StudyGroupMatches(g: StudyGroup, searchTerm: string)
  {
    Mentions(g.subject, searchTerm) || Mentions(g.leader, searchTerm)
  }

  /** `filteredGroups`: exactly the matching student groups, in list order. */
  function FilteredGroups(groups: seq<StudentGroup>, searchTerm: string, selectedCategory: string)
    : (r: seq<StudentGroup>)
    ensures Seqs.IsSubsequence(r, groups)
    ensures forall x :: multiset(r)[x]
                        == if GroupMatches(x, searchTerm, selectedCategory) then multiset(groups)[x] else 0
  {
    var p := (x: StudentGroup) => GroupMatches(x, searchTerm, selectedCategory);
    Seqs.FilterSelects(p, groups);
    Seqs.Filter(p, groups)
  }

  /** `filteredAmbassadors`: exactly the matching ambassadors, in list order. */
  function FilteredAmbassadors(ambassadors: seq<Ambassador>, searchTerm: string): (r: seq<Ambassador>)
    ensures Seqs.IsSubsequence(r, ambassadors)
    ensures forall x :: multiset(r)[x] == if AmbassadorMatches(x, searchTerm) then multiset(ambassadors)[x] else 0
  {
    var p := (x: Ambassador) => AmbassadorMatches(x, searchTerm);
    Seqs.FilterSelects(p, ambassadors);
    Seqs.Filter(p, ambassadors)
  }

  /** `filteredStudyGroups`: exactly the matching study groups, in list order. */
  function FilteredStudyGroups(studyGroups: seq<StudyGroup>, searchTerm: string): (r: seq<StudyGroup>)
    ensures Seqs.IsSubsequence(r, studyGroups)
    ensures forall x :: multiset(r)[x] == if StudyGroupMatches(x, searchTerm) then multiset(studyGroups)[x] else 0
  {
    var p := (x: StudyGroup) => StudyGroupMatches(x, searchTerm);
    Seqs.FilterSelects(p, studyGroups);
    Seqs.Filter(p, studyGroups)
  }

  /** The ambassador search reads only the name, role, department and bio fields. */
  lemma AmbassadorSearchFields(a: Ambassador, b: Ambassador, searchTerm: string)
    requires a.name == b.name && a.role == b.role && a.department == b.department && a.bio == b.bio
    ensures AmbassadorMatches(a, searchTerm) == AmbassadorMatches(b, searchTerm)
  {
  }

  /** The study-group search reads only the subject and leader fields. */
  lemma StudyGroupSearchFields(a: StudyGroup, b: StudyGroup, searchTerm: string)
    requires a.subject == b.subject && a.leader == b.leader
    ensures StudyGroupMatches(a, searchTerm) == StudyGroupMatches(b, searchTerm)
  {
  }

  /** With no search term and "All Categories", all three lists show their full data in order. */
  lemma UnfilteredListsAreEverything(groups: seq<StudentGroup>, ambassadors: seq<Ambassador>, studyGroups: seq<StudyGroup>)
    ensures FilteredGroups(groups, "", "All Categories") == groups
    ensures FilteredAmbassadors(ambassadors, "") == ambassadors
    ensures FilteredStudyGroups(studyGroups, "") == studyGroups
  {
    forall i | 0 <= i < |groups| ensures GroupMatches(groups[i], "", "All Categories") {
      Text.ContainsEmpty(Text.Lower(groups[i].name));
    }
    forall i | 0 <= i < |ambassadors| ensures AmbassadorMatches(ambassadors[i], "") {
      Text.ContainsEmpty(Text.Lower(ambassadors[i].name));
    }
    forall i | 0 <= i < |studyGroups| ensures StudyGroupMatches(studyGroups[i], "") {
      Text.ContainsEmpty(Text.Lower(studyGroups[i].subject));
    }
    Seqs.FilterKeepsAll((x: StudentGroup) => GroupMatches(x, "", "All Categories"), groups);
    Seqs.FilterKeepsAll((x: Ambassador) => AmbassadorMatches(x, ""), ambassadors);
    Seqs.FilterKeepsAll((x: StudyGroup) => StudyGroupMatches(x, ""), studyGroups);
  }

  /** The button styles the card uses: `outline`, and the library's `default`. */
  datatype ButtonVariant = Outline | Default

  /** The study-group card's button: its label, whether it is disabled, and its style. */
  datatype JoinButton = JoinButton(text: string, disabled: bool, variant: ButtonVariant)

  /** The group is full once its members reach the maximum; a full group shows a disabled
      "Group Full" outline button, any other group an enabled "Join Group" button. */
  function StudyGroupButton(g: StudyGroup): (b: JoinButton)
    ensures b.disabled <==> g.members >= g.maxMembers
    ensures b.text == "Group Full" <==> b.disabled
    ensures !b.disabled ==> b.text == "Join Group" && b.variant == Default
    ensures b.disabled ==> b.variant == Outline
  {
    var full := g.members >= g.maxMembers;
    JoinButton(if full then "Group Full" else "Join Group", full, if full then Outline else Default)
  }
}
