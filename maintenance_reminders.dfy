/** The per-item arithmetic of the dashboard's maintenance reminders. */
module MaintenanceReminders {
  import opened Wrappers
  import opened Records
  import opened Calendar
  import opened GearService

  /** `daysSinceLastMaintenance`: whole days since the last maintenance, or null without one. */
  function DaysSinceLast(g: GearItem, nowMs: int): (r: Option<int>)
    ensures r.None? <==> g.lastMaintenance.None?
    ensures r.Some? ==> StartOf(g.lastMaintenance.value) + r.value * MsPerDay <= nowMs
                        < StartOf(g.lastMaintenance.value) + (r.value + 1) * MsPerDay
  {
    match g.lastMaintenance
    case None => None
    case Some(last) => Some(DaysSince(nowMs, last))
  }

  /**
    What the reminder shows under the last-maintenance line: "n days overdue",
    "Due in n days", the text "0" that React renders for the falsy interval 0 in
    `days !== null && interval && ...`, or nothing.
  */
  datatype Reminder = Overdue(days: int) | DueIn(days: int) | ZeroText | NoText

  function ReminderOf(g: GearItem, nowMs: int): (r: Reminder)
    ensures g.lastMaintenance.None? || g.maintenanceInterval.None? <==> r == NoText
    ensures g.lastMaintenance.Some? && g.maintenanceInterval == Some(0) <==> r == ZeroText
    ensures r.Overdue? ==> r.days > 0 && r.days == DaysSinceLast(g, nowMs).value - g.maintenanceInterval.value
    ensures r.DueIn? ==> r.days >= 0 && r.days == g.maintenanceInterval.value - DaysSinceLast(g, nowMs).value
    ensures g.lastMaintenance.Some? && g.maintenanceInterval.Some? && g.maintenanceInterval.value != 0 ==>
              (r.Overdue? <==> DaysSinceLast(g, nowMs).value > g.maintenanceInterval.value)
              && (r.DueIn? <==> DaysSinceLast(g, nowMs).value <= g.maintenanceInterval.value)
  {
    match DaysSinceLast(g, nowMs)
    case None => NoText
    case Some(days) =>
      match g.maintenanceInterval
      case None => NoText
      case Some(interval) =>
        if interval == 0 then ZeroText
        else if days > interval then Overdue(days - interval)
        else DueIn(interval - days)
  }

  /**
    The reminder agrees with the gear service's maintenance check: an item needs
    maintenance exactly when it is overdue or due in 0 days.
  */
  lemma ReminderAgreesWithCheck(g: GearItem, nowMs: int)
    ensures NeedsMaintenance(g, nowMs) <==> ReminderOf(g, nowMs).Overdue? || ReminderOf(g, nowMs) == DueIn(0)
  {
  }

  /** On the day the interval runs out the reminder reads "Due in 0 days". */
  lemma DueOnTheDay(g: GearItem, nowMs: int)
    requires g.lastMaintenance.Some? && g.maintenanceInterval.Some? && g.maintenanceInterval.value != 0
    requires DaysSinceLast(g, nowMs).value == g.maintenanceInterval.value
    ensures ReminderOf(g, nowMs) == DueIn(0)
  {
  }
}
