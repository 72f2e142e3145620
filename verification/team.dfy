/** The team roster and its lookup by designation. */
module Team {
  import opened Wrappers

  datatype Designation = VicePresident | TechLead | Member

  datatype TeamMember = TeamMember(
    id: string,
    name: string,
    role: string,
    designation: Designation,
    image: string,
    bio: Option<string>,
    linkedin: Option<string>,
    github: Option<string>,
    email: Option<string>)

  /** The shipped roster, in order. */
  function TeamData(): (r: seq<TeamMember>)
    ensures |r| == 3
  {
    [
      TeamMember("vp-001", "Sehaj Preet", "President", VicePresident, "/team/sehaj.png",
        Some("Leading MindFlare's vision to empower learners with structured pathways."),
        Some("https://www.linkedin.com/in/sehajmakkar/"),
        Some("https://github.com/sehajmakkar"),
        Some("sehajmakkar007@gmail.com")),
      TeamMember("tl-001", "Dev Uppal", "Tech Lead - Development", TechLead, "/team/dev.png",
        Some("Passionate about building scalable web applications."),
        Some("https://linkedin.com/in/devuppal46"),
        Some("https://github.com/devuppal46"),
        None),
      TeamMember("tl-002", "Sarthak", "Tech Lead - AI/ML", TechLead, "/team/sarthak.png",
        Some("Exploring the frontiers of artificial intelligence and machine learning."),
        Some("https://www.linkedin.com/in/sarthak-5272b32b2/"),
        Some("https://github.com/molubhai08"),
        None)
    ]
  }

  /** Member ids on the shipped roster are unique. */
  lemma RosterIdsUnique()
    ensures forall i, j :: 0 <= i < j < |TeamData()| ==> TeamData()[i].id != TeamData()[j].id
  {
    assert "vp-001"[0] != "tl-001"[0] && "vp-001"[0] != "tl-002"[0] && "tl-001"[5] != "tl-002"[5];
  }

  /** `a` is `b` with some elements dropped, order kept. */
  predicate IsSubsequence(a: seq<TeamMember>, b: seq<TeamMember>): (r: bool)
    ensures r ==> |a| <= |b|
    ensures r ==> forall m :: m in a ==> m in b
  {
    if a == [] then true
    else if b == [] then false
    else if a[0] == b[0] then
      assert a == [a[0]] + a[1..] && b == [b[0]] + b[1..];
      IsSubsequence(a[1..], b[1..])
    else
      assert b == [b[0]] + b[1..];
      IsSubsequence(a, b[1..])
  }

  /** `members.filter(member => member.designation === designation)` */
  function FilterByDesignation(members: seq<TeamMember>, designation: Designation): (r: seq<TeamMember>)
    ensures |r| <= |members|
    ensures forall m :: m in r ==> m.designation == designation && m in members
    ensures forall m :: m in members && m.designation == designation ==> m in r
  {
    if members == [] then []
    else if members[0].designation == designation then [members[0]] + FilterByDesignation(members[1..], designation)
    else FilterByDesignation(members[1..], designation)
  }

  function GetTeamByDesignation(designation: Designation): (r: seq<TeamMember>)
    ensures forall m :: m in r <==> m in TeamData() && m.designation == designation
  {
    FilterByDesignation(TeamData(), designation)
  }

  /** The filter keeps roster order and every copy of each matching member. */
  lemma {:induction false} FilterKeepsOrderAndMultiplicity(members: seq<TeamMember>, designation: Designation)
    ensures IsSubsequence(FilterByDesignation(members, designation), members)
    ensures forall m :: multiset(FilterByDesignation(members, designation))[m]
                     == if m.designation == designation then multiset(members)[m] else 0
  {
    if members != [] {
      var rest := FilterByDesignation(members[1..], designation);
      FilterKeepsOrderAndMultiplicity(members[1..], designation);
      assert members == [members[0]] + members[1..];
      if members[0].designation != designation {
        SubsequenceOfTail(rest, members);
      }
    }
  }

  lemma {:induction false} SubsequenceOfTail(a: seq<TeamMember>, b: seq<TeamMember>)
    requires b != [] && IsSubsequence(a, b[1..])
    ensures IsSubsequence(a, b)
  {
    if a != [] && a[0] == b[0] {
      SubsequenceDropHead(a, b[1..]);
    }
  }

  lemma {:induction false} SubsequenceDropHead(a: seq<TeamMember>, b: seq<TeamMember>)
    requires a != [] && IsSubsequence(a, b)
    ensures IsSubsequence(a[1..], b)
  {
    if a[0] == b[0] {
      if b[1..] != [] {
        SubsequenceOfTail(a[1..], b);
      }
    } else {
      SubsequenceDropHead(a, b[1..]);
      SubsequenceOfTail(a[1..], b);
    }
  }

  /** The three designations split any roster: the result lengths add up to its length. */
  lemma {:induction false} DesignationsPartition(members: seq<TeamMember>)
    ensures |FilterByDesignation(members, VicePresident)|
          + |FilterByDesignation(members, TechLead)|
          + |FilterByDesignation(members, Member)| == |members|
  {
    if members != [] {
      DesignationsPartition(members[1..]);
    }
  }

  /** On the shipped roster: one vice-president, two tech leads, no members. */
  lemma ShippedRoster()
    ensures |GetTeamByDesignation(VicePresident)| == 1 && GetTeamByDesignation(VicePresident)[0].id == "vp-001"
    ensures |GetTeamByDesignation(TechLead)| == 2
    ensures GetTeamByDesignation(TechLead)[0].id == "tl-001" && GetTeamByDesignation(TechLead)[1].id == "tl-002"
    ensures GetTeamByDesignation(Member) == []
  {
    assert TeamData()[1..][1..][1..] == [];
  }
}
