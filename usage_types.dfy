/** The records the screens exchange (users, usage entries, groups). Dates
    are instants in local milliseconds; see module Dates. */
module UsageTypes {
  import opened Wrappers

  /** One app's share of a day's screen time. */
  datatype AppUsage = AppUsage(appName: string, minutesUsed: int)

  /** One user's recorded usage for one calendar day. */
  datatype UsageEntry = UsageEntry(
    id: string,
    userId: string,
    date: int,
    minutesUsed: int,
    weeklyMinutes: Option<int>,
    dailyAverage: Option<int>,
    appUsage: Option<seq<AppUsage>>)

  datatype User = User(id: string, name: string, dailyGoalMinutes: int)

  /** `user?.dailyGoalMinutes ?? 0` */
  function DailyGoal(user: Option<User>): int {
    if user.Some? then user.value.dailyGoalMinutes else 0
  }

  datatype GroupMember = GroupMember(id: string, name: string, dailyGoalMinutes: int)

  datatype Group = Group(id: string, name: string, members: seq<GroupMember>)
}
