/** The local group screen (screens/group/GroupScreen.tsx): creating a group,
    joining one by its code, the code shown for a group and each member's
    share of the daily goal. The ids `nanoid()` generates are parameters. */
module Groups {
  import opened Wrappers
  import opened Text
  import opened Numbers
  import opened UsageTypes

  const MissingInfoMessage: string := "Please set your name and daily goal on Home first."
  const NameRequiredMessage: string := "Enter a group name."
  const InvalidCodeMessage: string := "Enter a valid group code."

  /** `id.slice(-6).toUpperCase()`: the last six characters (all of a
      shorter id), upper-cased. */
  function CodeFromId(id: string): (code: string)
    ensures |code| == if |id| < 6 then |id| else 6
    ensures forall k :: 0 <= k < |code| ==> code[k] == UpperAscii(id[|id| - |code| + k])
  {
    ToUpperAscii(if |id| < 6 then id else id[|id| - 6..])
  }

  /** An upper-cased string is its own upper case. */
  predicate IsUpper(s: string) {
    ToUpperAscii(s) == s
  }

  lemma UpperAsciiIdempotent(s: string)
    ensures IsUpper(ToUpperAscii(s))
  {
    assert forall k :: 0 <= k < |s| ==> UpperAscii(UpperAscii(s[k])) == UpperAscii(s[k]);
  }

  /** The code of a code is the code: what the screen shows is a fixed
      point. */
  lemma CodeFromIdIdempotent(id: string)
    ensures CodeFromId(CodeFromId(id)) == CodeFromId(id)
  {
    var c := CodeFromId(id);
    UpperAsciiIdempotent(if |id| < 6 then id else id[|id| - 6..]);
    assert c[|c| - |c|..] == c;
  }

  /** The member record of the user. */
  function AsMember(u: User): GroupMember {
    GroupMember(u.id, u.name, u.dailyGoalMinutes)
  }

  /** `handleCreate` on values: the new group, or the alert shown. The user
      comes first, then the mock friends Alex (the user's goal) and Sam (30
      minutes less, but at least 30). */
  function CreateGroup(user: Option<User>, groupName: string, id: string, alexId: string, samId: string)
    : (r: Result<Group, string>)
    ensures user.None? ==> r == Err(MissingInfoMessage)
    ensures user.Some? && AllWhitespace(groupName) ==> r == Err(NameRequiredMessage)
    ensures r.Ok? <==> user.Some? && !AllWhitespace(groupName)
    ensures r.Ok? ==> r.value.id == id && r.value.name == Trim(groupName)
  {
    if user.None? then Err(MissingInfoMessage)
    else
      var name := Trim(groupName);
      if name == [] then Err(NameRequiredMessage)
      else
        var u := user.value;
        var members := [
          AsMember(u),
          GroupMember(alexId, "Alex", u.dailyGoalMinutes),
          GroupMember(samId, "Sam", if 30 < u.dailyGoalMinutes - 30 then u.dailyGoalMinutes - 30 else 30)
        ];
        Ok(Group(id, name, members))
  }

  /** `groupCode.trim().toUpperCase()` */
  function NormalizeCode(groupCode: string): string {
    ToUpperAscii(Trim(groupCode))
  }

  /** `handleJoin` on values: the mock group of the code, or the alert
      shown. The two mock members Taylor (the user's goal) and Jordan (30
      minutes more) come first, the user last. */
  function JoinGroup(user: Option<User>, groupCode: string, taylorId: string, jordanId: string)
    : (r: Result<Group, string>)
    ensures user.None? ==> r == Err(MissingInfoMessage)
    ensures user.Some? && |Trim(groupCode)| < 4 ==> r == Err(InvalidCodeMessage)
    ensures r.Ok? <==> user.Some? && |Trim(groupCode)| >= 4
    ensures r.Ok? ==> r.value.id == "grp_" + NormalizeCode(groupCode)
                      && r.value.name == "Group " + NormalizeCode(groupCode)
    ensures r.Ok? ==> r.value.members == JoinedMembers(user.value, taylorId, jordanId)
  {
    if user.None? then Err(MissingInfoMessage)
    else
      var code := NormalizeCode(groupCode);
      if |code| < 4 then Err(InvalidCodeMessage)
      else Ok(Group("grp_" + code, "Group " + code, JoinedMembers(user.value, taylorId, jordanId)))
  }

  /** The two members the joined group is shown with, then the user. */
  function JoinedMembers(u: User, taylorId: string, jordanId: string): seq<GroupMember> {
    var existingMembers := [
      GroupMember(taylorId, "Taylor", u.dailyGoalMinutes),
      GroupMember(jordanId, "Jordan", u.dailyGoalMinutes + 30)
    ];
    existingMembers + [AsMember(u)]
  }

  /** The user is in the group once, under their own id, name and goal. */
  predicate HasMemberOnce(g: Group, u: User) {
    && (exists k :: 0 <= k < |g.members| && g.members[k] == AsMember(u))
    && forall j, k :: 0 <= j < k < |g.members| ==> g.members[j].id != u.id || g.members[k].id != u.id
  }

  /** A created group has a trimmed, non-empty name and three members: the
      user first, and only once when the generated ids differ from the
      user's; Alex with the user's goal; and Sam with 30 minutes less than
      the user but never under 30 (`Math.max(30, goal - 30)`). */
  lemma CreatedGroupShape(user: Option<User>, groupName: string, id: string, alexId: string, samId: string)
    requires CreateGroup(user, groupName, id, alexId, samId).Ok?
    ensures var g := CreateGroup(user, groupName, id, alexId, samId).value;
            alexId != user.value.id && samId != user.value.id ==> HasMemberOnce(g, user.value)
    ensures var g := CreateGroup(user, groupName, id, alexId, samId).value;
            && |g.members| == 3 && g.members[0] == AsMember(user.value)
            && g.name != [] && Trim(g.name) == g.name
            && g.members[1] == GroupMember(alexId, "Alex", user.value.dailyGoalMinutes)
            && g.members[2].id == samId && g.members[2].name == "Sam"
            && g.members[2].dailyGoalMinutes >= 30
            && g.members[2].dailyGoalMinutes >= user.value.dailyGoalMinutes - 30
            && (g.members[2].dailyGoalMinutes == 30 || g.members[2].dailyGoalMinutes == user.value.dailyGoalMinutes - 30)
  {
    var g := CreateGroup(user, groupName, id, alexId, samId).value;
    assert g.members[0] == AsMember(user.value);
    TrimOfTrimmed(g.name);
  }

  /** A joined group has three members, every goal at least the user's, and
      the user last and once (when the generated ids differ from the
      user's). */
  lemma JoinedGroupShape(user: Option<User>, groupCode: string, taylorId: string, jordanId: string)
    requires JoinGroup(user, groupCode, taylorId, jordanId).Ok?
    requires taylorId != user.value.id && jordanId != user.value.id
    ensures var g := JoinGroup(user, groupCode, taylorId, jordanId).value;
            && |g.members| == 3 && g.members[2] == AsMember(user.value)
            && HasMemberOnce(g, user.value)
            && forall k :: 0 <= k < 3 ==> g.members[k].dailyGoalMinutes >= user.value.dailyGoalMinutes
  {
    JoinedMembersShape(user.value, taylorId, jordanId);
  }

  lemma JoinedMembersShape(u: User, taylorId: string, jordanId: string)
    requires taylorId != u.id && jordanId != u.id
    ensures var m := JoinedMembers(u, taylorId, jordanId);
            && |m| == 3 && m[2] == AsMember(u)
            && (forall k :: 0 <= k < 3 ==> m[k].dailyGoalMinutes >= u.dailyGoalMinutes)
            && forall g: Group :: g.members == m ==> HasMemberOnce(g, u)
  {
    var m := JoinedMembers(u, taylorId, jordanId);
    assert m == [GroupMember(taylorId, "Taylor", u.dailyGoalMinutes),
                 GroupMember(jordanId, "Jordan", u.dailyGoalMinutes + 30), AsMember(u)];
  }

  /** Codes that differ only in letter case join the same group. */
  lemma JoinIgnoresCase(user: Option<User>, groupCode: string, taylorId: string, jordanId: string)
    ensures JoinGroup(user, ToLowerAscii(groupCode), taylorId, jordanId)
         == JoinGroup(user, groupCode, taylorId, jordanId)
  {
    NormalizeIgnoresCase(groupCode);
    TrimLower(groupCode);
  }

  lemma NormalizeIgnoresCase(groupCode: string)
    ensures NormalizeCode(ToLowerAscii(groupCode)) == NormalizeCode(groupCode)
  {
    var t := Trim(groupCode);
    TrimLower(groupCode);
    forall k | 0 <= k < |t| ensures ToUpperAscii(ToLowerAscii(t))[k] == ToUpperAscii(t)[k] {
      UpperOfLower(t[k]);
    }
  }

  lemma UpperOfLower(c: char)
    ensures UpperAscii(LowerAscii(c)) == UpperAscii(c)
  {
    if 'A' <= c <= 'Z' {
      assert 'a' <= LowerAscii(c) <= 'z';
      assert UpperAscii(LowerAscii(c)) as int == c as int;
    }
  }

  lemma UpperConcat(a: string, b: string)
    ensures ToUpperAscii(a + b) == ToUpperAscii(a) + ToUpperAscii(b)
  {
    forall k | 0 <= k < |a + b| ensures ToUpperAscii(a + b)[k] == (ToUpperAscii(a) + ToUpperAscii(b))[k] {
      if k >= |a| {
        assert (a + b)[k] == b[k - |a|];
      }
    }
  }

  lemma UpperSuffix(s: string, i: nat)
    requires IsUpper(s) && i <= |s|
    ensures IsUpper(s[i..])
  {
    assert s == s[..i] + s[i..];
    UpperConcat(s[..i], s[i..]);
  }

  /** The code shown for a joined group: the last six characters of the
      code when it has at least six, and otherwise the code preceded by the
      tail of the id prefix (`"P_"` for four characters, `"_"` for five). */
  lemma JoinedCodeShown(code: string)
    requires IsUpper(code) && |code| >= 4
    ensures CodeFromId("grp_" + code)
         == if |code| >= 6 then code[|code| - 6..] else ToUpperAscii("grp_"[|code| - 2..]) + code
  {
    CodeOfPrefixed("grp_", code);
  }

  lemma CodeOfPrefixed(pre: string, code: string)
    requires IsUpper(code) && |pre| + |code| >= 6
    ensures CodeFromId(pre + code)
         == if |code| >= 6 then code[|code| - 6..] else ToUpperAscii(pre[|pre| + |code| - 6..]) + code
  {
    var id := pre + code;
    if |code| >= 6 {
      assert id[|id| - 6..] == code[|code| - 6..];
      UpperSuffix(code, |code| - 6);
    } else {
      var tail := pre[|pre| + |code| - 6..];
      assert id[|id| - 6..] == tail + code;
      UpperConcat(tail, code);
    }
  }

  /** A member's `used` minutes and share of the goal. */
  datatype MemberProgress = MemberProgress(used: int, pct: real)

  /** `progressPercent`: a member with no recorded minutes has used 0. */
  function ProgressPercent(member: GroupMember, memberProgress: map<string, int>): (r: MemberProgress)
    ensures member.id !in memberProgress ==> r.used == 0
    ensures member.id in memberProgress ==> r.used == memberProgress[member.id]
    ensures member.dailyGoalMinutes <= 0 ==> r.pct == 0.0
    ensures r.used >= 0 ==> 0.0 <= r.pct <= 1.0
    ensures member.dailyGoalMinutes > 0 && r.used >= member.dailyGoalMinutes ==> r.pct == 1.0
  {
    var used := if member.id in memberProgress then memberProgress[member.id] else 0;
    MemberProgress(used, GoalFraction(used as real, member.dailyGoalMinutes as real))
  }

  class GroupScreen {
    var user: Option<User>
    var group: Option<Group>
    var groupName: string
    var groupCode: string

    constructor (storedUser: Option<User>, storedGroup: Option<Group>)
      ensures user == storedUser && group == storedGroup && groupName == "" && groupCode == ""
    {
      user := storedUser;
      group := storedGroup;
      groupName := "";
      groupCode := "";
    }

    /** `handleCreate`: on success the group is replaced and the name field
        cleared, and the alert shows the new group's code. */
    method HandleCreate(id: string, alexId: string, samId: string) returns (alert: Result<string, string>)
      modifies this
      ensures var c := CreateGroup(old(user), old(groupName), id, alexId, samId);
              && (c.Ok? ==> group == Some(c.value) && groupName == "" && alert == Ok("Code: " + CodeFromId(id)))
              && (c.Err? ==> group == old(group) && groupName == old(groupName) && alert == Err(c.error))
      ensures user == old(user) && groupCode == old(groupCode)
    {
      if user.None? {
        return Err(MissingInfoMessage);
      }
      var name := Trim(groupName);
      if name == [] {
        return Err(NameRequiredMessage);
      }
      var u := user.value;
      var members := [
        AsMember(u),
        GroupMember(alexId, "Alex", u.dailyGoalMinutes),
        GroupMember(samId, "Sam", if 30 < u.dailyGoalMinutes - 30 then u.dailyGoalMinutes - 30 else 30)
      ];
      group := Some(Group(id, name, members));
      groupName := "";
      alert := Ok("Code: " + CodeFromId(id));
    }

    /** `handleJoin`: on success the group is replaced and the code field
        cleared, and the alert shows the group's name. */
    method HandleJoin(taylorId: string, jordanId: string) returns (alert: Result<string, string>)
      modifies this
      ensures var j := JoinGroup(old(user), old(groupCode), taylorId, jordanId);
              && (j.Ok? ==> group == Some(j.value) && groupCode == "" && alert == Ok(j.value.name))
              && (j.Err? ==> group == old(group) && groupCode == old(groupCode) && alert == Err(j.error))
      ensures user == old(user) && groupName == old(groupName)
    {
      if user.None? {
        return Err(MissingInfoMessage);
      }
      var code := NormalizeCode(groupCode);
      if |code| < 4 {
        return Err(InvalidCodeMessage);
      }
      var id := "grp_" + code;
      var baseName := "Group " + code;
      var u := user.value;
      var existingMembers := [
        GroupMember(taylorId, "Taylor", u.dailyGoalMinutes),
        GroupMember(jordanId, "Jordan", u.dailyGoalMinutes + 30)
      ];
      var joinedMembers := existingMembers + [AsMember(u)];
      group := Some(Group(id, baseName, joinedMembers));
      groupCode := "";
      alert := Ok(baseName);
    }
  }
}
