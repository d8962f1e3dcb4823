/** The records the services share, and the identifiers they are kept under. */
module Entities {
  import opened Text
  import opened Calendar

  type RowId = string
  type TeamId = string
  type UserId = string

  /** A team's settings. An absent or empty `webhookUrl` means that none is configured. */
  datatype Config = Config(timezone: string, workingDays: seq<nat>, deadline: HhMm, reminderTime: HhMm,
                           webhookUrl: Option<string>, isActive: bool)

  const DEFAULT_CONFIG := Config("UTC", [1, 2, 3, 4, 5], "10:00", "09:00", None, true)

  datatype Team = Team(ownerId: UserId, deleted: bool, config: Option<Config>)

  datatype Standup = Standup(id: RowId, team: TeamId, user: UserId, day: Day,
                             yesterday: string, today: string, blockers: Option<string>,
                             isLate: bool, deleted: bool)
}
