/** Which jobs a tick enqueues, and what any number of ticks adds up to (scheduler.py). */
module Scheduler {
  import opened Common
  import opened CronFields
  import opened JobQueue

  datatype CronField = CronField(minutes: Option<set<int>>, hours: Option<set<int>>, days: Option<set<int>>,
                                 months: Option<set<int>>, weekdays: Option<set<int>>)

  /** A minute on the calendar; `weekday` counts from Monday, as Python does. */
  datatype Calendar = Calendar(minute: int, hour: int, day: int, month: int, weekday: int)

  datatype Source = Source(code: string, schedule: string)

  /** How instants are read and written - the calendar and the `%Y%m%d%H%M` stamp of an epoch minute - and the
      periodic platform jobs. */
  datatype Env = Env(text: Text, calendar: int -> Calendar, stamp: int -> string, schedule: seq<Periodic>)

  datatype Entry = Entry(kind: string, payload: string, entity: string, version: string)

  datatype Periodic = Periodic(kind: string, every: nat)

  const PLATFORM_SCHEDULE: seq<Periodic> := [
    Periodic("source.health", 15 * 60), Periodic("notify.deadlines", 15 * 60), Periodic("vault.freshness", 6 * 3600),
    Periodic("notify.send", 5 * 60), Periodic("digest.daily", 3600)]

  const FETCH := "source.fetch"

  /** None where `parse_cron` raises `ValueError`. */
  function ParseCron(text: Text, expression: string): Option<CronField> {
    var parts := text.words(expression);
    if |parts| != 5 then None
    else
      var minutes, hours := FieldMeaning(text, parts[0], 0, 59), FieldMeaning(text, parts[1], 0, 23);
      var days, months := FieldMeaning(text, parts[2], 1, 31), FieldMeaning(text, parts[3], 1, 12);
      var weekdays := FieldMeaning(text, parts[4], 0, 6);
      if minutes.Some? && hours.Some? && days.Some? && months.Some? && weekdays.Some?
      then Some(CronField(minutes.value, hours.value, days.value, months.value, weekdays.value))
      else None
  }

  predicate Allows(field: Option<set<int>>, value: int) {
    field.None? || value in field.value
  }

  /** Cron weekdays count from Sunday. */
  function CronMatches(text: Text, expression: string, c: Calendar): Option<bool> {
    ClockMatches(ParseCron(text, expression), c)
  }

  function ClockMatches(parsed: Option<CronField>, c: Calendar): Option<bool> {
    match parsed
    case None => None
    case Some(f) => Some(AllowsClock(f, c, (c.weekday + 1) % 7))
  }

  predicate AllowsClock(f: CronField, c: Calendar, weekday: int) {
    Allows(f.minutes, c.minute) && Allows(f.hours, c.hour) && Allows(f.days, c.day) && Allows(f.months, c.month)
    && Allows(f.weekdays, weekday)
  }

  /** The number of the period an instant falls in. */
  function Bucket(seconds: nat, every: nat): nat {
    seconds / Max(1, every)
  }

  function TimeBucket(seconds: nat, every: nat): string {
    Decimal(Bucket(seconds, every))
  }

  /** A malformed schedule is skipped. */
  function SourceEntry(env: Env, source: Source, minute: int): seq<Entry> {
    if CronMatches(env.text, source.schedule, env.calendar(minute)) == Some(true)
    then [Entry(FETCH, source.code, source.code, env.stamp(minute))] else []
  }

  function SourceEntries(env: Env, sources: seq<Source>, minute: int): seq<Entry> {
    if sources == [] then [] else SourceEntry(env, sources[0], minute) + SourceEntries(env, sources[1..], minute)
  }

  function PlatformVersion(kind: string, bucket: string): string {
    kind + ":" + bucket
  }

  function PlatformEntry(p: Periodic, seconds: nat): Entry {
    Entry(p.kind, "", "platform", PlatformVersion(p.kind, TimeBucket(seconds, p.every)))
  }

  function PlatformEntries(schedule: seq<Periodic>, seconds: nat): seq<Entry> {
    seq(|schedule|, i requires 0 <= i < |schedule| => PlatformEntry(schedule[i], seconds))
  }

  /** `now` with its seconds dropped. */
  function Truncated(now: nat): nat {
    now - now % 60
  }

  function Due(env: Env, sources: seq<Source>, now: nat): seq<Entry> {
    SourceEntries(env, sources, now / 60) + PlatformEntries(env.schedule, Truncated(now))
  }

  function KeyOf(e: Entry): string {
    IdempotencyKey(e.kind, e.entity, e.version)
  }

  /** Enqueue entries one after the other, drawing an id for each. */
  function EnqueueAll(t: Table, entries: seq<Entry>, ids: seq<JobId>, runAt: int): Result<Table, QueueError>
    requires |entries| <= |ids|
    decreases |entries|
  {
    if entries == [] then Ok(t)
    else
      var e := entries[0];
      match Enqueued(t, ids[0], e.kind, e.payload, e.entity, e.version, runAt, DEFAULT_MAX_ATTEMPTS)
      case Err(error) => Err(error)
      case Ok((t', _)) => EnqueueAll(t', entries[1..], ids[1..], runAt)
  }

  // ---------------------------------------------------------------- when a source is due

  /** Python's weekdays are numbered from Monday. */
  ghost predicate Calendrical(env: Env) {
    forall minute :: 0 <= env.calendar(minute).weekday <= 6
  }

  /** Five fields, each of which can be read. */
  ghost predicate WellFormed(text: CronFields.Text, expression: string) {
    var words := text.words(expression);
    && |words| == 5
    && FieldReads(text, words[0], 0, 59) && FieldReads(text, words[1], 0, 23) && FieldReads(text, words[2], 1, 31)
    && FieldReads(text, words[3], 1, 12) && FieldReads(text, words[4], 0, 6)
  }

  /** The cron week begins on Sunday. */
  function SundayFirst(weekday: int): int {
    if weekday == 6 then 0 else weekday + 1
  }

  /** Minute, hour, day, month and weekday, in this order. */
  ghost predicate SelectsAll(text: CronFields.Text, words: seq<string>, c: Calendar, weekday: int) {
    && |words| == 5
    && FieldSelects(text, words[0], 0, 59, c.minute)
    && FieldSelects(text, words[1], 0, 23, c.hour)
    && FieldSelects(text, words[2], 1, 31, c.day)
    && FieldSelects(text, words[3], 1, 12, c.month)
    && FieldSelects(text, words[4], 0, 6, weekday)
  }

  ghost predicate Fires(text: CronFields.Text, expression: string, c: Calendar) {
    WellFormed(text, expression) && SelectsAll(text, text.words(expression), c, SundayFirst(c.weekday))
  }

  /** A fetch of each source whose schedule fires, under the stamp of the minute. */
  ghost function Fetches(env: Env, sources: seq<Source>, minute: int): seq<Entry> {
    if sources == [] then []
    else
      var last := sources[|sources| - 1];
      Fetches(env, sources[..|sources| - 1], minute)
      + if Fires(env.text, last.schedule, env.calendar(minute))
        then [Entry("source.fetch", last.code, last.code, env.stamp(minute))] else []
  }

  /** A platform job under the number of the period its minute begins in. */
  ghost predicate IsPeriodic(e: Entry, p: Periodic, minute: int) {
    exists n: nat :: e == Entry(p.kind, "", "platform", p.kind + ":" + Decimal(n)) && BeginsIn(60 * minute, p.every, n)
  }

  ghost predicate BeginsIn(seconds: int, every: nat, n: nat) {
    var period := if every < 1 then 1 else every;
    period * n <= seconds < period * n + period
  }

  lemma AllowsExact(text: CronFields.Text, spec: string, low: int, high: int, v: int)
    ensures FieldMeaning(text, spec, low, high).Some? <==> FieldReads(text, spec, low, high)
    ensures FieldMeaning(text, spec, low, high).Some? ==>
              (Allows(FieldMeaning(text, spec, low, high).value, v) <==> FieldSelects(text, spec, low, high, v))
  {
    FieldExact(text, spec, low, high);
  }

  lemma ReadsExact(text: CronFields.Text, spec: string, low: int, high: int)
    ensures FieldMeaning(text, spec, low, high).Some? <==> FieldReads(text, spec, low, high)
  {
    FieldExact(text, spec, low, high);
  }

  lemma ParseExact(text: CronFields.Text, expression: string)
    ensures ParseCron(text, expression).Some? <==> WellFormed(text, expression)
  {
    var words := text.words(expression);
    if |words| == 5 {
      ReadsExact(text, words[0], 0, 59);
      ReadsExact(text, words[1], 0, 23);
      ReadsExact(text, words[2], 1, 31);
      ReadsExact(text, words[3], 1, 12);
      ReadsExact(text, words[4], 0, 6);
    }
  }

  /** Each of the five sets lets the clock through exactly if its field does. */
  ghost predicate Agree(text: CronFields.Text, words: seq<string>, f: CronField, c: Calendar, weekday: int) {
    && |words| == 5
    && (Allows(f.minutes, c.minute) <==> FieldSelects(text, words[0], 0, 59, c.minute))
    && (Allows(f.hours, c.hour) <==> FieldSelects(text, words[1], 0, 23, c.hour))
    && (Allows(f.days, c.day) <==> FieldSelects(text, words[2], 1, 31, c.day))
    && (Allows(f.months, c.month) <==> FieldSelects(text, words[3], 1, 12, c.month))
    && (Allows(f.weekdays, weekday) <==> FieldSelects(text, words[4], 0, 6, weekday))
  }

  lemma FieldsExact(text: CronFields.Text, expression: string, c: Calendar, weekday: int)
    requires ParseCron(text, expression).Some?
    ensures Agree(text, text.words(expression), ParseCron(text, expression).value, c, weekday)
  {
    var words := text.words(expression);
    AllowsExact(text, words[0], 0, 59, c.minute);
    AllowsExact(text, words[1], 0, 23, c.hour);
    AllowsExact(text, words[2], 1, 31, c.day);
    AllowsExact(text, words[3], 1, 12, c.month);
    AllowsExact(text, words[4], 0, 6, weekday);
  }

  lemma AgreeingFires(text: CronFields.Text, words: seq<string>, c: Calendar, f: CronField, weekday: int)
    requires Agree(text, words, f, c, weekday)
    ensures AllowsClock(f, c, weekday) <==> SelectsAll(text, words, c, weekday)
  {
  }

  lemma WeekTurns(parsed: Option<CronField>, c: Calendar, fires: bool)
    requires 0 <= c.weekday <= 6 && parsed.Some?
    requires AllowsClock(parsed.value, c, SundayFirst(c.weekday)) == fires
    ensures ClockMatches(parsed, c) == Some(fires)
  {
  }

  lemma ClockExact(text: CronFields.Text, expression: string, c: Calendar, weekday: int)
    requires ParseCron(text, expression).Some?
    ensures AllowsClock(ParseCron(text, expression).value, c, weekday) <==>
            SelectsAll(text, text.words(expression), c, weekday)
  {
    FieldsExact(text, expression, c, weekday);
    AgreeingFires(text, text.words(expression), c, ParseCron(text, expression).value, weekday);
  }

  lemma CronExact(text: CronFields.Text, expression: string, c: Calendar)
    requires 0 <= c.weekday <= 6 && ParseCron(text, expression).Some?
    ensures CronMatches(text, expression, c)
            == Some(SelectsAll(text, text.words(expression), c, SundayFirst(c.weekday)))
  {
    ClockExact(text, expression, c, SundayFirst(c.weekday));
    WeekTurns(ParseCron(text, expression), c,
              SelectsAll(text, text.words(expression), c, SundayFirst(c.weekday)));
  }

  /** A schedule that cannot be read counts as one that does not fire. */
  lemma SourceExact(env: Env, source: Source, minute: int)
    requires Calendrical(env)
    ensures SourceEntry(env, source, minute) ==
            if Fires(env.text, source.schedule, env.calendar(minute))
            then [Entry("source.fetch", source.code, source.code, env.stamp(minute))] else []
  {
    ParseExact(env.text, source.schedule);
    if WellFormed(env.text, source.schedule) { CronExact(env.text, source.schedule, env.calendar(minute)); }
  }

  lemma {:induction false} SourceEntriesOneMore(env: Env, sources: seq<Source>, source: Source, minute: int)
    ensures SourceEntries(env, sources + [source], minute) ==
            SourceEntries(env, sources, minute) + SourceEntry(env, source, minute)
  {
    if sources == [] {
      assert sources + [source] == [source] && [source][1..] == [];
    } else {
      assert (sources + [source])[1..] == sources[1..] + [source];
      SourceEntriesOneMore(env, sources[1..], source, minute);
    }
  }

  lemma {:induction false} FetchesExact(env: Env, sources: seq<Source>, minute: int)
    requires Calendrical(env)
    ensures SourceEntries(env, sources, minute) == Fetches(env, sources, minute)
  {
    if sources != [] {
      var init, last := sources[..|sources| - 1], sources[|sources| - 1];
      assert sources == init + [last];
      SourceEntriesOneMore(env, init, last, minute);
      FetchesExact(env, init, minute);
      SourceExact(env, last, minute);
    }
  }

  lemma PeriodicExact(p: Periodic, now: nat)
    ensures IsPeriodic(PlatformEntry(p, Truncated(now)), p, now / 60)
  {
    var period, seconds := Max(1, p.every), 60 * (now / 60);
    assert seconds == period * (seconds / period) + seconds % period;
    assert BeginsIn(seconds, p.every, seconds / period);
  }

  /** What a tick makes due: a fetch of each source whose schedule fires at this minute, then each platform job. */
  lemma DueExact(env: Env, sources: seq<Source>, now: nat)
    requires Calendrical(env)
    ensures var due, fetches := Due(env, sources, now), Fetches(env, sources, now / 60);
            && |due| == |fetches| + |env.schedule| && due[..|fetches|] == fetches
            && forall i :: 0 <= i < |env.schedule| ==> IsPeriodic(due[|fetches| + i], env.schedule[i], now / 60)
  {
    FetchesExact(env, sources, now / 60);
    forall i | 0 <= i < |env.schedule|
      ensures IsPeriodic(PlatformEntries(env.schedule, Truncated(now))[i], env.schedule[i], now / 60) {
      PeriodicExact(env.schedule[i], now);
    }
  }

  lemma {:induction false} FetchedExact(env: Env, sources: seq<Source>, minute: int, code: string)
    ensures Entry("source.fetch", code, code, env.stamp(minute)) in Fetches(env, sources, minute) <==>
            exists s :: s in sources && s.code == code && Fires(env.text, s.schedule, env.calendar(minute))
  {
    if sources != [] {
      FetchedExact(env, sources[..|sources| - 1], minute, code);
      assert forall s :: s in sources <==> s in sources[..|sources| - 1] || s == sources[|sources| - 1];
    }
  }

  /** A source is fetched at a minute exactly if a schedule of that code fires at it. */
  lemma FetchedWhenDue(env: Env, sources: seq<Source>, now: nat, code: string)
    requires Calendrical(env) && forall p :: p in env.schedule ==> p.kind != "source.fetch"
    ensures Entry("source.fetch", code, code, env.stamp(now / 60)) in Due(env, sources, now) <==>
            exists s :: s in sources && s.code == code && Fires(env.text, s.schedule, env.calendar(now / 60))
  {
    FetchesExact(env, sources, now / 60);
    FetchedExact(env, sources, now / 60, code);
  }

  /** A schedule that cannot be read costs its own source the fetch, and nothing else. */
  lemma BadScheduleIsSkipped(env: Env, before: seq<Source>, bad: Source, after: seq<Source>, now: nat)
    requires !WellFormed(env.text, bad.schedule)
    ensures Due(env, before + [bad] + after, now) == Due(env, before + after, now)
  {
    BadAddsNothing(env, bad, now / 60);
    SourceEntriesConcat(env, before + [bad], after, now / 60);
    SourceEntriesOneMore(env, before, bad, now / 60);
    SourceEntriesConcat(env, before, after, now / 60);
  }

  lemma BadAddsNothing(env: Env, bad: Source, minute: int)
    requires !WellFormed(env.text, bad.schedule)
    ensures SourceEntry(env, bad, minute) == []
  {
    ParseExact(env.text, bad.schedule);
  }

  lemma {:induction false} SourceEntriesConcat(env: Env, a: seq<Source>, b: seq<Source>, minute: int)
    ensures SourceEntries(env, a + b, minute) == SourceEntries(env, a, minute) + SourceEntries(env, b, minute)
  {
    if a == [] {
      assert a + b == b;
    } else {
      assert (a + b)[1..] == a[1..] + b;
      SourceEntriesConcat(env, a[1..], b, minute);
    }
  }

  /** A field as it is printed: `*`, or numbers with commas between them. */
  datatype Choice = Any | Only(values: seq<nat>)

  function PrintChoice(choice: Choice): string
    requires choice.Only? ==> choice.values != []
  {
    if choice.Any? then "*" else Glued(Printed(choice.values), ',')
  }

  predicate Within(choice: Choice, low: int, high: int) {
    choice.Only? ==> choice.values != [] && forall i :: 0 <= i < |choice.values| ==> low <= choice.values[i] <= high
  }

  predicate Chosen(choice: Choice, v: int) {
    choice.Any? || exists i :: 0 <= i < |choice.values| && choice.values[i] == v
  }

  lemma ChoiceMeans(text: CronFields.Text, choice: Choice, low: int, high: int, v: int)
    requires Reads(text) && text.strip("*") == "*" && Within(choice, low, high)
    ensures FieldMeaning(text, PrintChoice(choice), low, high).Some?
    ensures Allows(FieldMeaning(text, PrintChoice(choice), low, high).value, v) <==> Chosen(choice, v)
  {
    if choice.Only? { FieldRoundTrip(text, choice.values, low, high); }
  }

  /** A schedule as it is printed: minutes, hours, days, months and weekdays. */
  datatype Choices = Choices(minutes: Choice, hours: Choice, days: Choice, months: Choice, weekdays: Choice)

  predicate AllWithin(p: Choices) {
    && Within(p.minutes, 0, 59) && Within(p.hours, 0, 23) && Within(p.days, 1, 31) && Within(p.months, 1, 12)
    && Within(p.weekdays, 0, 6)
  }

  function PrintedWords(p: Choices): seq<string>
    requires AllWithin(p)
  {
    [PrintChoice(p.minutes), PrintChoice(p.hours), PrintChoice(p.days), PrintChoice(p.months), PrintChoice(p.weekdays)]
  }

  predicate AllChosen(p: Choices, c: Calendar, weekday: int) {
    && Chosen(p.minutes, c.minute) && Chosen(p.hours, c.hour) && Chosen(p.days, c.day) && Chosen(p.months, c.month)
    && Chosen(p.weekdays, weekday)
  }

  lemma ChoicesMean(text: CronFields.Text, expression: string, p: Choices, c: Calendar, weekday: int)
    requires Reads(text) && text.strip("*") == "*" && AllWithin(p) && text.words(expression) == PrintedWords(p)
    ensures ParseCron(text, expression).Some?
    ensures AllowsClock(ParseCron(text, expression).value, c, weekday) <==> AllChosen(p, c, weekday)
  {
    ChoiceMeans(text, p.minutes, 0, 59, c.minute);
    ChoiceMeans(text, p.hours, 0, 23, c.hour);
    ChoiceMeans(text, p.days, 1, 31, c.day);
    ChoiceMeans(text, p.months, 1, 12, c.month);
    ChoiceMeans(text, p.weekdays, 0, 6, weekday);
  }

  /** For every schedule printed from five choices: the source is fetched exactly when minute, hour, day, month and
      weekday - Sunday 0, Monday 1 - are each among those chosen. */
  lemma PrintedScheduleFires(env: Env, source: Source, at: int, p: Choices)
    requires Reads(env.text) && env.text.strip("*") == "*" && 0 <= env.calendar(at).weekday <= 6
    requires AllWithin(p) && env.text.words(source.schedule) == PrintedWords(p)
    ensures var c := env.calendar(at);
            SourceEntry(env, source, at) ==
            if AllChosen(p, c, if c.weekday == 6 then 0 else c.weekday + 1)
            then [Entry("source.fetch", source.code, source.code, env.stamp(at))] else []
  {
    var c := env.calendar(at);
    ChoicesMean(env.text, source.schedule, p, c, SundayFirst(c.weekday));
    WeekTurns(ParseCron(env.text, source.schedule), c, AllChosen(p, c, SundayFirst(c.weekday)));
  }

  // ---------------------------------------------------------------- the tick

  /** One `enqueue` of a tick. */
  method EnqueueEntry(queue: Queue, e: Entry, id: JobId, runAt: int) returns (error: Option<QueueError>)
    modifies queue
    ensures match EnqueueAll(old(queue.rows), [e], [id], runAt)
            case Ok(t) => error == None && queue.rows == t
            case Err(raised) => error == Some(raised) && queue.rows == old(queue.rows)
  {
    assert [e][1..] == [] && [id][1..] == [];
    var r := queue.Enqueue(id, e.kind, e.payload, e.entity, e.version, runAt, DEFAULT_MAX_ATTEMPTS);
    error := if r.Ok? then None else Some(r.error);
  }

  lemma {:induction false} EnqueueOneMore(t: Table, entries: seq<Entry>, e: Entry, ids: seq<JobId>, id: JobId,
                                          runAt: int)
    requires |entries| == |ids|
    ensures EnqueueAll(t, entries + [e], ids + [id], runAt) ==
            match EnqueueAll(t, entries, ids, runAt)
            case Err(error) => Err(error)
            case Ok(t') => EnqueueAll(t', [e], [id], runAt)
    decreases |entries|
  {
    if entries == [] {
      assert entries + [e] == [e] && ids + [id] == [id];
    } else {
      assert (entries + [e])[1..] == entries[1..] + [e] && (ids + [id])[1..] == ids[1..] + [id];
      var first := entries[0];
      match Enqueued(t, ids[0], first.kind, first.payload, first.entity, first.version, runAt, DEFAULT_MAX_ATTEMPTS)
      case Err(_) =>
      case Ok((t', _)) => EnqueueOneMore(t', entries[1..], e, ids[1..], id, runAt);
    }
  }

  /** What the registry makes due, source by source and then job by job. */
  method DueEntries(env: Env, sources: seq<Source>, now: nat) returns (entries: seq<Entry>)
    ensures entries == Due(env, sources, now)
    ensures Calendrical(env) ==>
              var fetches := Fetches(env, sources, now / 60);
              && |entries| == |fetches| + |env.schedule| && entries[..|fetches|] == fetches
              && forall i :: 0 <= i < |env.schedule| ==> IsPeriodic(entries[|fetches| + i], env.schedule[i], now / 60)
  {
    if Calendrical(env) { DueExact(env, sources, now); }
    entries := [];
    for i := 0 to |sources|
      invariant entries == SourceEntries(env, sources[..i], now / 60)
    {
      assert sources[..i + 1] == sources[..i] + [sources[i]];
      SourceEntriesOneMore(env, sources[..i], sources[i], now / 60);
      match CronMatches(env.text, sources[i].schedule, env.calendar(now / 60))
      case None =>
      case Some(due) =>
        if due {
          entries := entries + [Entry(FETCH, sources[i].code, sources[i].code, env.stamp(now / 60))];
        }
    }
    assert sources[..|sources|] == sources;
    entries := entries + PlatformEntries(env.schedule, Truncated(now));
  }

  lemma {:induction false} EnqueueStops(t: Table, entries: seq<Entry>, ids: seq<JobId>, runAt: int, n: nat)
    requires |entries| == |ids| && n <= |entries| && EnqueueAll(t, entries[..n], ids[..n], runAt).Err?
    ensures EnqueueAll(t, entries, ids, runAt) == EnqueueAll(t, entries[..n], ids[..n], runAt)
    decreases n
  {
    if n > 0 {
      assert entries[..n][1..] == entries[1..][..n - 1] && ids[..n][1..] == ids[1..][..n - 1];
      var e := entries[0];
      match Enqueued(t, ids[0], e.kind, e.payload, e.entity, e.version, runAt, DEFAULT_MAX_ATTEMPTS)
      case Err(_) =>
      case Ok((t', _)) => EnqueueStops(t', entries[1..], ids[1..], runAt, n - 1);
    }
  }

  /** The enqueues of a tick; if one raises, nothing of them remains. */
  method EnqueueEach(queue: Queue, entries: seq<Entry>, ids: seq<JobId>, runAt: int) returns (error: Option<QueueError>)
    requires |entries| == |ids|
    modifies queue
    ensures match EnqueueAll(old(queue.rows), entries, ids, runAt)
            case Ok(t) => error == None && queue.rows == t
            case Err(raised) => error == Some(raised) && queue.rows == old(queue.rows)
  {
    var before := queue.rows;
    for i := 0 to |entries|
      invariant EnqueueAll(before, entries[..i], ids[..i], runAt) == Ok(queue.rows)
    {
      assert entries[..i + 1] == entries[..i] + [entries[i]] && ids[..i + 1] == ids[..i] + [ids[i]];
      EnqueueOneMore(before, entries[..i], entries[i], ids[..i], ids[i], runAt);
      error := EnqueueEntry(queue, entries[i], ids[i], runAt);
      if error.Some? {
        EnqueueStops(before, entries, ids, runAt, i + 1);
        queue.rows := before;
        return;
      }
    }
    assert entries[..|entries|] == entries && ids[..|ids|] == ids;
    error := None;
  }

  /** One tick, in one transaction. */
  method Tick(queue: Queue, env: Env, sources: seq<Source>, now: nat, ids: seq<JobId>)
    returns (error: Option<QueueError>)
    requires |ids| == |Due(env, sources, now)|
    modifies queue
    ensures match EnqueueAll(old(queue.rows), Due(env, sources, now), ids, now)
            case Ok(t) => error == None && queue.rows == t
            case Err(raised) => error == Some(raised) && queue.rows == old(queue.rows)
  {
    var entries := DueEntries(env, sources, now);
    error := EnqueueEach(queue, entries, ids, now);
  }

  // ---------------------------------------------------------------- any number of ticks

  function Keys(t: Table): set<string> {
    set j | j in t :: t[j].key
  }

  function KeysIn(entries: seq<Entry>): set<string> {
    set e | e in entries :: KeyOf(e)
  }

  /** `entries` are what the ticks at `ticks` enqueue, in any order and any number of times. */
  ghost predicate Interleaves(env: Env, sources: seq<Source>, ticks: seq<nat>, entries: seq<Entry>) {
    forall e :: e in entries <==> DueAtSome(env, sources, ticks, e)
  }

  ghost predicate DueAtSome(env: Env, sources: seq<Source>, ticks: seq<nat>, e: Entry) {
    exists i :: 0 <= i < |ticks| && e in Due(env, sources, ticks[i])
  }

  /** Every job of `t'` that is not in `t` comes from one of the entries. */
  ghost predicate ComesFrom(t: Table, t': Table, entries: seq<Entry>) {
    forall j :: j in t' && j !in t ==> exists e :: e in entries && t'[j].kind == e.kind && t'[j].key == KeyOf(e)
  }

  lemma EnqueueAddsKey(t: Table, e: Entry, id: JobId, runAt: int)
    requires Enqueued(t, id, e.kind, e.payload, e.entity, e.version, runAt, DEFAULT_MAX_ATTEMPTS).Ok?
    ensures var t' := Enqueued(t, id, e.kind, e.payload, e.entity, e.version, runAt, DEFAULT_MAX_ATTEMPTS).value.0;
            Keys(t') == Keys(t) + {KeyOf(e)}
  {
  }

  lemma {:induction false} RowsKept(t: Table, entries: seq<Entry>, ids: seq<JobId>, runAt: int, j: JobId)
    requires |entries| <= |ids| && j in t && EnqueueAll(t, entries, ids, runAt).Ok?
    ensures j in EnqueueAll(t, entries, ids, runAt).value && EnqueueAll(t, entries, ids, runAt).value[j] == t[j]
    decreases |entries|
  {
    if entries != [] {
      var e := entries[0];
      var one := Enqueued(t, ids[0], e.kind, e.payload, e.entity, e.version, runAt, DEFAULT_MAX_ATTEMPTS).value.0;
      RowsKept(one, entries[1..], ids[1..], runAt, j);
    }
  }

  /** Which keys end up in the queue depends only on which entries were enqueued. */
  lemma {:induction false} KeysAfterAll(t: Table, entries: seq<Entry>, ids: seq<JobId>, runAt: int)
    requires |entries| <= |ids| && KeysUnique(t) && EnqueueAll(t, entries, ids, runAt).Ok?
    ensures var t' := EnqueueAll(t, entries, ids, runAt).value;
            KeysUnique(t') && Keys(t') == Keys(t) + KeysIn(entries)
    decreases |entries|
  {
    if entries != [] {
      var e := entries[0];
      EnqueueAddsKey(t, e, ids[0], runAt);
      var one := Enqueued(t, ids[0], e.kind, e.payload, e.entity, e.version, runAt, DEFAULT_MAX_ATTEMPTS).value.0;
      KeysAfterAll(one, entries[1..], ids[1..], runAt);
      assert entries == [e] + entries[1..];
      assert KeysIn(entries) == {KeyOf(e)} + KeysIn(entries[1..]);
    }
  }

  lemma {:induction false} JobsComeFrom(t: Table, entries: seq<Entry>, ids: seq<JobId>, runAt: int)
    requires |entries| <= |ids| && EnqueueAll(t, entries, ids, runAt).Ok?
    ensures ComesFrom(t, EnqueueAll(t, entries, ids, runAt).value, entries)
    decreases |entries|
  {
    if entries != [] {
      var e := entries[0];
      var one := Enqueued(t, ids[0], e.kind, e.payload, e.entity, e.version, runAt, DEFAULT_MAX_ATTEMPTS).value.0;
      JobsComeFrom(one, entries[1..], ids[1..], runAt);
      assert entries == [e] + entries[1..];
      var t' := EnqueueAll(t, entries, ids, runAt).value;
      forall j | j in t' && j !in t
        ensures exists f :: f in entries && t'[j].kind == f.kind && t'[j].key == KeyOf(f)
      {
        if j in one {
          RowsKept(one, entries[1..], ids[1..], runAt, j);
        }
      }
    }
  }

  ghost predicate DueKey(env: Env, sources: seq<Source>, ticks: seq<nat>, key: string) {
    exists e :: DueAtSome(env, sources, ticks, e) && KeyOf(e) == key
  }

  /** However ticks interleave and repeat, they add to the queue exactly one job for each key due at a ticked minute
      that was not there before. */
  lemma OneJobPerDueKey(t: Table, env: Env, sources: seq<Source>, ticks: seq<nat>, entries: seq<Entry>, ids: seq<JobId>,
                        runAt: int)
    requires |entries| <= |ids| && Interleaves(env, sources, ticks, entries) && KeysUnique(t)
    requires EnqueueAll(t, entries, ids, runAt).Ok?
    ensures var t' := EnqueueAll(t, entries, ids, runAt).value;
            && KeysUnique(t')
            && (forall key :: key in Keys(t') <==> key in Keys(t) || DueKey(env, sources, ticks, key))
            && (forall j :: j in t ==> j in t' && t'[j] == t[j])
  {
    KeysAfterAll(t, entries, ids, runAt);
    var t' := EnqueueAll(t, entries, ids, runAt).value;
    forall j | j in t ensures j in t' && t'[j] == t[j] { RowsKept(t, entries, ids, runAt, j); }
    forall key ensures key in Keys(t') <==> key in Keys(t) || DueKey(env, sources, ticks, key) {
      if key in KeysIn(entries) {
        var e :| e in entries && KeyOf(e) == key;
        assert DueAtSome(env, sources, ticks, e);
      }
      if DueKey(env, sources, ticks, key) {
        var e :| DueAtSome(env, sources, ticks, e) && KeyOf(e) == key;
        assert e in entries;
      }
    }
  }

  // ---------------------------------------------------------------- how many jobs a period allows

  function JobsOfKind(t: Table, kind: string): set<JobId> {
    set j | j in t && t[j].kind == kind
  }

  predicate KeyedWithin(t: Table, keyOf: nat -> string, j: JobId, lo: nat, hi: int) {
    j in t && exists b: nat :: lo <= b <= hi && t[j].key == keyOf(b)
  }

  function WithKey(t: Table, jobs: set<JobId>, key: string): set<JobId>
    requires forall j :: j in jobs ==> j in t
  {
    set j | j in jobs && t[j].key == key
  }

  lemma AtMostOneWithKey(t: Table, jobs: set<JobId>, key: string)
    requires KeysUnique(t) && forall j :: j in jobs ==> j in t
    ensures |WithKey(t, jobs, key)| <= 1
  {
    var found := WithKey(t, jobs, key);
    if found != {} {
      var j :| j in found;
      assert found == {j};
    }
  }

  /** Without the jobs of the last bucket, the others lie within one bucket fewer. */
  lemma WithoutLastBucket(t: Table, keyOf: nat -> string, j: JobId, lo: nat, hi: nat)
    requires KeyedWithin(t, keyOf, j, lo, hi) && t[j].key != keyOf(hi)
    ensures KeyedWithin(t, keyOf, j, lo, hi - 1)
  {
  }

  lemma OneMoreAtMost(all: set<JobId>, some: set<JobId>)
    requires some <= all && |some| <= 1
    ensures |all| <= |all - some| + 1
  {
    assert all == (all - some) + some;
  }

  lemma {:induction false} AtMostOnePerBucket(t: Table, keyOf: nat -> string, jobs: set<JobId>, lo: nat, hi: int)
    requires KeysUnique(t) && lo - 1 <= hi && forall j :: j in jobs ==> KeyedWithin(t, keyOf, j, lo, hi)
    ensures |jobs| <= hi - lo + 1
    decreases hi - lo + 1
  {
    if hi < lo {
      assert jobs == {};
    } else {
      var last := WithKey(t, jobs, keyOf(hi));
      AtMostOneWithKey(t, jobs, keyOf(hi));
      forall j | j in jobs - last ensures KeyedWithin(t, keyOf, j, lo, hi - 1) {
        WithoutLastBucket(t, keyOf, j, lo, hi);
      }
      AtMostOnePerBucket(t, keyOf, jobs - last, lo, hi - 1);
      OneMoreAtMost(jobs, last);
    }
  }

  function BucketKey(kind: string): nat -> string {
    (bucket: nat) => IdempotencyKey(kind, "platform", PlatformVersion(kind, Decimal(bucket)))
  }

  lemma {:induction false} SourceEntriesAreFetches(env: Env, sources: seq<Source>, minute: int)
    ensures forall e :: e in SourceEntries(env, sources, minute) ==> e.kind == FETCH
  {
    if sources != [] { SourceEntriesAreFetches(env, sources[1..], minute); }
  }

  /** No kind is scheduled twice, none is a source fetch, and periods are whole minutes. */
  predicate OneEach(schedule: seq<Periodic>) {
    && (forall i :: 0 <= i < |schedule| ==> schedule[i].kind != FETCH)
    && (forall i :: 0 <= i < |schedule| ==> schedule[i].every >= 60 && schedule[i].every % 60 == 0)
    && (forall i, j :: 0 <= i < j < |schedule| ==> schedule[i].kind != schedule[j].kind)
  }

  /** The platform's schedule is of that kind. */
  lemma PlatformIsOneEach()
    ensures OneEach(PLATFORM_SCHEDULE)
  {
  }

  /** An entry of a scheduled kind carries the bucket of its tick. */
  lemma ScheduledKey(schedule: seq<Periodic>, seconds: nat, fetches: seq<Entry>, e: Entry, p: Periodic)
    requires OneEach(schedule) && p in schedule && e.kind == p.kind
    requires forall f :: f in fetches ==> f.kind == FETCH
    requires e in fetches + PlatformEntries(schedule, seconds)
    ensures KeyOf(e) == BucketKey(p.kind)(Bucket(seconds, p.every))
  {
  }

  lemma WholeMinutes(now: nat, k: nat)
    requires k >= 1
    ensures Truncated(now) / (60 * k) == now / (60 * k)
  {
    var m := now / 60;
    var q, r := m / k, m % k;
    assert m == k * q + r && now == 60 * m + now % 60;
    assert (60 * k) * q == 60 * (k * q);
    QuotientUnique(now, 60 * k, q, 60 * r + now % 60);
    QuotientUnique(Truncated(now), 60 * k, q, 60 * r);
  }

  /** Dropping the seconds does not move an instant to another bucket: every period is whole minutes. */
  lemma TruncatedBucket(p: Periodic, now: nat)
    requires p.every >= 60 && p.every % 60 == 0
    ensures Bucket(Truncated(now), p.every) == Bucket(now, p.every)
  {
    var k := p.every / 60;
    assert p.every == 60 * k;
    WholeMinutes(now, k);
  }

  lemma DueKeyOfKind(env: Env, sources: seq<Source>, now: nat, e: Entry, p: Periodic)
    requires OneEach(env.schedule) && p in env.schedule && e in Due(env, sources, now) && e.kind == p.kind
    ensures KeyOf(e) == BucketKey(p.kind)(Bucket(now, p.every))
  {
    SourceEntriesAreFetches(env, sources, now / 60);
    TruncatedBucket(p, now);
    ScheduledKey(env.schedule, Truncated(now), SourceEntries(env, sources, now / 60), e, p);
  }

  lemma KeyedByTick(env: Env, sources: seq<Source>, ticks: seq<nat>, e: Entry, p: Periodic, t: Table, j: JobId,
                    first: nat, last: nat)
    requires OneEach(env.schedule) && p in env.schedule && DueAtSome(env, sources, ticks, e)
    requires forall i :: 0 <= i < |ticks| ==> first <= ticks[i] <= last
    requires j in t && t[j].key == KeyOf(e) && e.kind == p.kind
    ensures KeyedWithin(t, BucketKey(p.kind), j, Bucket(first, p.every), Bucket(last, p.every))
  {
    var i :| 0 <= i < |ticks| && e in Due(env, sources, ticks[i]);
    DueKeyOfKind(env, sources, ticks[i], e, p);
    DivisionOrdered(first, ticks[i], Max(1, p.every));
    DivisionOrdered(ticks[i], last, Max(1, p.every));
  }

  /** Ticks between `first` and `last`, however many, leave at most as many jobs of a platform kind as there are
      periods they touch. */
  lemma AtMostOneJobPerPeriod(env: Env, sources: seq<Source>, ticks: seq<nat>, entries: seq<Entry>, ids: seq<JobId>,
                              runAt: int, p: Periodic, first: nat, last: nat)
    requires |entries| <= |ids| && Interleaves(env, sources, ticks, entries)
    requires EnqueueAll(map[], entries, ids, runAt).Ok?
    requires OneEach(env.schedule) && p in env.schedule
    requires first <= last && forall i :: 0 <= i < |ticks| ==> first <= ticks[i] <= last
    ensures |JobsOfKind(EnqueueAll(map[], entries, ids, runAt).value, p.kind)| <=
            Bucket(last, p.every) - Bucket(first, p.every) + 1
  {
    var t := EnqueueAll(map[], entries, ids, runAt).value;
    var lo, hi := Bucket(first, p.every), Bucket(last, p.every);
    KeysAfterAll(map[], entries, ids, runAt);
    JobsComeFrom(map[], entries, ids, runAt);
    DivisionOrdered(first, last, Max(1, p.every));
    forall j | j in JobsOfKind(t, p.kind) ensures KeyedWithin(t, BucketKey(p.kind), j, lo, hi) {
      var e :| e in entries && t[j].kind == e.kind && t[j].key == KeyOf(e);
      KeyedByTick(env, sources, ticks, e, p, t, j, first, last);
    }
    AtMostOnePerBucket(t, BucketKey(p.kind), JobsOfKind(t, p.kind), lo, hi);
  }

  /** The jobs of a kind are at most as many as the periods of so many seconds between two instants. */
  predicate OnePer(t: Table, kind: string, seconds: nat, first: nat, last: nat)
    requires seconds > 0
  {
    |JobsOfKind(t, kind)| <= last / seconds - first / seconds + 1
  }

  /** The platform's own jobs: health checks and deadline alerts each at most once a quarter of an hour, deliveries once
      in five minutes, the digest once an hour and vault freshness once in six hours. */
  lemma PlatformJobsPerPeriod(env: Env, sources: seq<Source>, ticks: seq<nat>, entries: seq<Entry>, ids: seq<JobId>,
                              runAt: int, first: nat, last: nat)
    requires env.schedule == PLATFORM_SCHEDULE
    requires |entries| <= |ids| && Interleaves(env, sources, ticks, entries)
    requires EnqueueAll(map[], entries, ids, runAt).Ok?
    requires first <= last && forall i :: 0 <= i < |ticks| ==> first <= ticks[i] <= last
    ensures var t := EnqueueAll(map[], entries, ids, runAt).value;
            && OnePer(t, "source.health", 900, first, last) && OnePer(t, "notify.deadlines", 900, first, last)
            && OnePer(t, "notify.send", 300, first, last) && OnePer(t, "digest.daily", 3600, first, last)
            && OnePer(t, "vault.freshness", 21600, first, last)
  {
    PlatformIsOneEach();
    assert env.schedule == [
      Periodic("source.health", 900), Periodic("notify.deadlines", 900), Periodic("vault.freshness", 21600),
      Periodic("notify.send", 300), Periodic("digest.daily", 3600)];
    forall i | 0 <= i < |env.schedule|
      ensures OnePer(EnqueueAll(map[], entries, ids, runAt).value, env.schedule[i].kind, env.schedule[i].every, first,
                     last) {
      AtMostOneJobPerPeriod(env, sources, ticks, entries, ids, runAt, env.schedule[i], first, last);
    }
    assert env.schedule[0].every == 900 && env.schedule[1].every == 900 && env.schedule[2].every == 21600;
    assert env.schedule[3].every == 300 && env.schedule[4].every == 3600;
  }
}
