/**
 * The part of WP-Cron the plugin drives: at most one scheduled event per
 * hook, with its next run time and its recurrence name.
 */
module WpCron {
  import opened Common

  datatype Event = Event(timestamp: int, recurrence: Value)

  class Scheduler {
    var events: map<string, Event>

    constructor ()
      ensures events == map[]
    {
      events := map[];
    }

    /** `wp_next_scheduled` / `wp_get_scheduled_event`. */
    method NextScheduled(hook: string) returns (e: Option<Event>)
      ensures e == (if hook in events then Some(events[hook]) else None)
    {
      e := if hook in events then Some(events[hook]) else None;
    }

    /** `wp_unschedule_event`. */
    method Unschedule(hook: string)
      modifies this
      ensures events == old(events) - {hook}
    {
      events := events - {hook};
    }

    /** `wp_schedule_event`. */
    method Schedule(timestamp: int, recurrence: Value, hook: string)
      modifies this
      ensures events == old(events)[hook := Event(timestamp, recurrence)]
    {
      events := events[hook := Event(timestamp, recurrence)];
    }
  }
}
