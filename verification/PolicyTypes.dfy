/** The policy entities as plain values. */
module PolicyTypes {
  datatype Action = Allow | Block | Observe | Unknown(name: string)

  predicate ValidAction(action: Action) {
    !action.Unknown?
  }

  datatype Rule = Rule(domain: string, includeSubdomains: bool, action: Action, category: string, reason: string)

  datatype TimeWindow = TimeWindow(id: string, title: string, days: seq<int>, start: string, end: string)

  datatype ScheduledAction = ScheduledAction(window: TimeWindow, action: Action)

  datatype RuleGroup = RuleGroup(
    id: string, name: string, action: Action, category: string, reason: string,
    domains: seq<string>, defaultDomains: seq<string>, domainSource: string, customized: bool,
    schedules: seq<ScheduledAction>)

  datatype Profile = Profile(
    id: string, houseId: string, title: string, hostname: string, disabled: bool,
    defaultAction: Action, version: int,
    rules: seq<Rule>, groups: seq<RuleGroup>, pauses: seq<TimeWindow>, timeZone: string)

  /** An instant as the local clock of a profile shows it; Sunday is weekday 0. */
  datatype Clock = Clock(weekday: int, hour: int, minute: int)

  predicate ValidClock(clock: Clock) {
    0 <= clock.weekday < 7 && 0 <= clock.hour < 24 && 0 <= clock.minute < 60
  }
}
