/**
 * The categorisation of timeline events (backend/src/routes/timeline.js):
 * the listed events are split into upcoming and past ones, and the open
 * events with a pending reminder are listed again as reminders. Dates are
 * instants on one integer time line.
 */
module Timeline {
  import opened Wrappers
  import opened Seqs

  datatype EventKind = Exam | Admission | Scholarship | Deadline | Counseling | Result

  datatype Event = Event(title: string, kind: EventKind, eventDate: int, reminderDate: Option<int>, isCompleted: bool)

  /** `e.eventDate >= currentDate && !e.isCompleted`. */
  predicate IsUpcoming(now: int, e: Event)
  {
    e.eventDate >= now && !e.isCompleted
  }

  /** `e.eventDate < currentDate || e.isCompleted`. */
  predicate IsPast(now: int, e: Event)
  {
    e.eventDate < now || e.isCompleted
  }

  /** `e.reminderDate && e.reminderDate >= currentDate && !e.isCompleted`; a stored date is always truthy. */
  predicate IsReminder(now: int, e: Event)
  {
    e.reminderDate.Some? && e.reminderDate.value >= now && !e.isCompleted
  }

  datatype Categories = Categories(upcoming: seq<Event>, past: seq<Event>, reminders: seq<Event>)

  /** `categorizedEvents`. */
  function Categorize(events: seq<Event>, now: int): (c: Categories)
    ensures forall e :: e in events ==> (e in c.upcoming <==> IsUpcoming(now, e))
    ensures forall e :: e in events ==> (e in c.past <==> IsPast(now, e))
    ensures forall e :: e in events ==> (e in c.reminders <==> IsReminder(now, e))
    ensures forall e :: e in c.upcoming || e in c.past || e in c.reminders ==> e in events
  {
    Categories(
      Filter(events, e => IsUpcoming(now, e)),
      Filter(events, e => IsPast(now, e)),
      Filter(events, e => IsReminder(now, e)))
  }

  /** Every event is in exactly one of upcoming and past, and together they hold each event once. */
  lemma UpcomingPastPartition(events: seq<Event>, now: int)
    ensures var c := Categorize(events, now);
      multiset(c.upcoming) + multiset(c.past) == multiset(events) &&
      |c.upcoming| + |c.past| == |events| &&
      forall e :: e in events ==> (e in c.upcoming <==> e !in c.past)
  {
    FilterSplit(events, e => IsUpcoming(now, e), e => IsPast(now, e));
  }

  /** A completed event is never upcoming and always past. */
  lemma CompletedIsPast(events: seq<Event>, now: int, e: Event)
    requires e in events && e.isCompleted
    ensures e !in Categorize(events, now).upcoming
    ensures e in Categorize(events, now).past
    ensures e !in Categorize(events, now).reminders
  {
  }

  /** Reminders are open events, so none of them is completed. */
  lemma RemindersOpen(events: seq<Event>, now: int)
    ensures forall i :: 0 <= i < |Categorize(events, now).reminders| ==>
      !Categorize(events, now).reminders[i].isCompleted &&
      Categorize(events, now).reminders[i].reminderDate.Some? &&
      Categorize(events, now).reminders[i].reminderDate.value >= now
  {
  }

  /** Each category lists its events in the order of the query (event date, then newest first). */
  lemma CategoriesKeepOrder(events: seq<Event>, now: int)
    ensures var c := Categorize(events, now);
      IsSubseq(c.upcoming, events) && IsSubseq(c.past, events) && IsSubseq(c.reminders, events)
  {
    FilterIsSubseq(events, e => IsUpcoming(now, e));
    FilterIsSubseq(events, e => IsPast(now, e));
    FilterIsSubseq(events, e => IsReminder(now, e));
  }
}
