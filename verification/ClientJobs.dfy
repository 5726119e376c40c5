/** The browser's job table: a version-filtered reducer over a map of records and a map of versions. */
module ClientJobs {
  import opened Results

  /** The value of a field; an absent JSON field reads as `Null`. */
  datatype Value = Null | Number(number: int) | Text(text: string)

  datatype Field =
    | JobType | Progress | ErrorInfo | RetryCount | Priority | TraceId | CreatedAt | StartedAt | UpdatedAt
    | FinishedAt | Entity | Outcome | Scope | BusinessStage | DisplayStatus

  /** A job as an event or a snapshot delivers it. */
  datatype JobEvent = JobEvent(
    id: Option<nat>, version: Option<nat>, status: string, currentStep: Option<string>, fields: map<Field, Value>)

  /** A record; `fields` holds the keys that are present, be their value `Null` or not. */
  datatype Job = Job(status: string, currentStep: Option<string>, fields: map<Field, Value>)

  datatype Table = Table(jobs: map<nat, Job>, versions: map<nat, nat>)

  const EMPTY_TABLE := Table(map[], map[])

  function ValueOf(fields: map<Field, Value>, f: Field): Value {
    if f in fields then fields[f] else Null
  }

  function VersionOf(e: JobEvent): nat {
    if e.version.Some? then e.version.value else 0
  }

  /** The priority is never read off an event. */
  predicate Carries(e: JobEvent, f: Field) {
    f != Priority && ValueOf(e.fields, f) != Null
  }

  /** What a field becomes when neither the event nor the record has it. */
  function Fallback(e: JobEvent, f: Field): Value {
    match f
    case Progress => Number(0)
    case RetryCount => Number(0)
    case Priority => Number(0)
    case JobType => Text("")
    case UpdatedAt => Text("")
    case CreatedAt => ValueOf(e.fields, UpdatedAt)
    case _ => Null
  }

  /** A field after an event: the event's value, else the one held, else the fallback. */
  function Merged(held: map<Field, Value>, e: JobEvent, f: Field): Value {
    if Carries(e, f) then e.fields[f]
    else if ValueOf(held, f) != Null then held[f]
    else Fallback(e, f)
  }

  function Merge(existing: Option<Job>, e: JobEvent): Job {
    var held := if existing.Some? then existing.value.fields else map[];
    Job(e.status, e.currentStep, map f: Field | true :: Merged(held, e, f))
  }

  function Applied(t: Table, e: JobEvent): Table {
    if e.id.None? then t
    else
      var id := e.id.value;
      if id in t.versions && VersionOf(e) <= t.versions[id] then t
      else
        var existing := if id in t.jobs then Some(t.jobs[id]) else None;
        Table(t.jobs[id := Merge(existing, e)], t.versions[id := VersionOf(e)])
  }

  function Delivered(t: Table, events: seq<JobEvent>): Table
    decreases |events|
  {
    if events == [] then t else Applied(Delivered(t, events[..|events| - 1]), events[|events| - 1])
  }

  lemma {:induction false} DeliveredOn(t: Table, events: seq<JobEvent>, e: JobEvent)
    ensures Delivered(t, events + [e]) == Applied(Delivered(t, events), e)
  {
    assert (events + [e])[..|events|] == events;
  }

  /** An event is taken in exactly when it names its job and its version is above every one taken in before; an event
      without a version has version 0. Nothing else changes. */
  lemma EventIsAccepted(t: Table, e: JobEvent, id: nat)
    ensures var version := if e.version == None then 0 else e.version.value;
            var newer := id in t.versions ==> version > t.versions[id];
            var u := Applied(t, e);
            && (e.id == Some(id) && newer ==>
                  && id in u.versions && u.versions[id] == version && id in u.jobs
                  && u.jobs[id].status == e.status && u.jobs[id].currentStep == e.currentStep)
            && (e.id != Some(id) || !newer ==>
                  && (id in u.versions <==> id in t.versions) && (id in u.versions ==> u.versions[id] == t.versions[id])
                  && (id in u.jobs <==> id in t.jobs) && (id in u.jobs ==> u.jobs[id] == t.jobs[id]))
  {
  }

  /** Every field of the record an accepted event leaves: the event's value if it has one, else the one held, else the
      field's own default. The priority is never taken from an event; a creation time may come from the update time. */
  lemma FieldAfterEvent(t: Table, e: JobEvent, id: nat, f: Field)
    requires e.id == Some(id) && (id in t.versions ==> VersionOf(e) > t.versions[id])
    ensures var u := Applied(t, e);
            var sent := if f in e.fields then e.fields[f] else Null;
            var held := if id in t.jobs && f in t.jobs[id].fields then t.jobs[id].fields[f] else Null;
            var updated := if UpdatedAt in e.fields then e.fields[UpdatedAt] else Null;
            && id in u.jobs && f in u.jobs[id].fields
            && (sent != Null && f != Priority ==> u.jobs[id].fields[f] == sent)
            && ((sent == Null || f == Priority) && held != Null ==> u.jobs[id].fields[f] == held)
            && ((sent == Null || f == Priority) && held == Null ==>
                  && (f in {Progress, RetryCount, Priority} ==> u.jobs[id].fields[f] == Number(0))
                  && (f in {JobType, UpdatedAt} ==> u.jobs[id].fields[f] == Text(""))
                  && (f == CreatedAt ==> u.jobs[id].fields[f] == updated)
                  && (f !in {Progress, RetryCount, Priority, JobType, UpdatedAt, CreatedAt} ==>
                        u.jobs[id].fields[f] == Null))
  {
  }

  // ----- the newest event wins -----

  ghost predicate Newest(events: seq<JobEvent>, id: nat, e: JobEvent) {
    && e in events && e.id == Some(id)
    && forall f :: f in events && f.id == Some(id) ==> VersionOf(f) <= VersionOf(e)
  }

  /** The job shows this event: its version, status and step, and every field it carries. */
  ghost predicate Shows(t: Table, id: nat, e: JobEvent)
    requires id in t.versions && id in t.jobs
  {
    && t.versions[id] == VersionOf(e) && t.jobs[id].status == e.status && t.jobs[id].currentStep == e.currentStep
    && forall f :: Carries(e, f) ==> ValueOf(t.jobs[id].fields, f) == e.fields[f]
  }

  /** A job is known exactly when an event of it arrived, and then shows one of its newest events. */
  lemma {:induction false} NewestEventWins(events: seq<JobEvent>, id: nat)
    ensures var t := Delivered(EMPTY_TABLE, events);
            && (id in t.versions <==> exists e :: e in events && e.id == Some(id))
            && (id in t.jobs <==> id in t.versions)
            && (id in t.versions ==> exists e :: Newest(events, id, e) && Shows(t, id, e))
    decreases |events|
  {
    if events != [] {
      var front, e := events[..|events| - 1], events[|events| - 1];
      assert events == front + [e];
      NewestEventWins(front, id);
      var before := Delivered(EMPTY_TABLE, front);
      if e.id == Some(id) {
        if id in before.versions && VersionOf(e) <= before.versions[id] {
          var best :| Newest(front, id, best) && Shows(before, id, best);
          assert Newest(events, id, best);
        } else {
          assert Newest(events, id, e);
          assert Shows(Applied(before, e), id, e);
        }
      } else if id in before.versions {
        var best :| Newest(front, id, best) && Shows(before, id, best);
        assert Newest(events, id, best) && Shows(Applied(before, e), id, best);
      }
    }
  }

  ghost predicate SameEvents(first: seq<JobEvent>, second: seq<JobEvent>) {
    forall e :: e in first <==> e in second
  }

  /** Two deliveries of the same events know the same jobs at the same versions, in any order and multiplicity. */
  lemma {:induction false} DeliveryOrderIsIrrelevant(first: seq<JobEvent>, second: seq<JobEvent>, id: nat)
    requires SameEvents(first, second)
    ensures var t, u := Delivered(EMPTY_TABLE, first), Delivered(EMPTY_TABLE, second);
            && (id in t.versions <==> id in u.versions)
            && (id in t.versions ==> t.versions[id] == u.versions[id])
  {
    NewestEventWins(first, id);
    NewestEventWins(second, id);
    var t, u := Delivered(EMPTY_TABLE, first), Delivered(EMPTY_TABLE, second);
    if id in t.versions {
      var e :| Newest(first, id, e) && Shows(t, id, e);
      var f :| Newest(second, id, f) && Shows(u, id, f);
      assert f in first && VersionOf(e) == VersionOf(f);
    }
  }

  /** The accepted version and the record of a job. */
  ghost predicate Holds(t: Table, id: nat, version: nat, job: Job) {
    id in t.versions && t.versions[id] == version && id in t.jobs && t.jobs[id] == job
  }

  lemma OlderChangesNothing(t: Table, e: JobEvent, id: nat, version: nat, job: Job)
    requires Holds(t, id, version, job) && (e.id == Some(id) ==> VersionOf(e) <= version)
    ensures Holds(Applied(t, e), id, version, job)
  {
  }

  /** Later, older events change nothing once a newest one is in. */
  lemma {:induction false} NewestIsKept(start: seq<JobEvent>, events: seq<JobEvent>, id: nat, version: nat, job: Job)
    requires forall f :: f in events && f.id == Some(id) ==> VersionOf(f) <= version
    requires Holds(Delivered(EMPTY_TABLE, start), id, version, job)
    ensures Holds(Delivered(EMPTY_TABLE, start + events), id, version, job)
    decreases |events|
  {
    if events == [] {
      assert start + events == start;
    } else {
      var front, last := events[..|events| - 1], events[|events| - 1];
      assert events == front + [last];
      NewestIsKept(start, front, id, version, job);
      assert start + events == (start + front) + [last];
      DeliveredOn(EMPTY_TABLE, start + front, last);
      OlderChangesNothing(Delivered(EMPTY_TABLE, start + front), last, id, version, job);
    }
  }

  lemma Repeated(repeats: seq<JobEvent>, events: seq<JobEvent>)
    requires forall e :: e in repeats ==> e in events
    ensures SameEvents(repeats + events, events)
  {
  }

  lemma OneEvent(e: JobEvent)
    ensures Delivered(EMPTY_TABLE, [e]) == Applied(EMPTY_TABLE, e)
  {
    DeliveredOn(EMPTY_TABLE, [], e);
    assert [] + [e] == [e];
  }

  lemma TwoEvents(e: JobEvent, f: JobEvent)
    ensures Delivered(EMPTY_TABLE, [e, f]) == Applied(Applied(EMPTY_TABLE, e), f)
  {
    OneEvent(e);
    DeliveredOn(EMPTY_TABLE, [e], f);
    assert [e] + [f] == [e, f];
  }

  /** If a newest event comes first, the job shows that event alone. */
  lemma {:induction false} NewestFirst(events: seq<JobEvent>, id: nat, e: JobEvent)
    requires Newest(events, id, e)
    ensures SameEvents([e] + events, events)
    ensures var t := Delivered(EMPTY_TABLE, [e] + events); id in t.jobs && t.jobs[id] == Merge(None, e)
  {
    Repeated([e], events);
    OneEvent(e);
    NewestIsKept([e], events, id, VersionOf(e), Merge(None, e));
  }

  // ----- when status and step do not depend on the order -----

  function StatusOf(t: Table, id: nat): Option<(string, Option<string>)> {
    if id in t.jobs then Some((t.jobs[id].status, t.jobs[id].currentStep)) else None
  }

  /** Whatever the order and repetition, the same events leave the same status and step. */
  ghost predicate StatusAgrees(events: seq<JobEvent>, id: nat) {
    forall first, second :: SameEvents(first, events) && SameEvents(second, events) ==>
      StatusOf(Delivered(EMPTY_TABLE, first), id) == StatusOf(Delivered(EMPTY_TABLE, second), id)
  }

  ghost predicate NewestShareStatus(events: seq<JobEvent>, id: nat, e: JobEvent) {
    forall n :: Newest(events, id, n) ==> n.status == e.status && n.currentStep == e.currentStep
  }

  lemma {:induction false} StatusOfNewest(events: seq<JobEvent>, other: seq<JobEvent>, id: nat, e: JobEvent)
    requires Newest(events, id, e) && NewestShareStatus(events, id, e) && SameEvents(other, events)
    ensures StatusOf(Delivered(EMPTY_TABLE, other), id) == Some((e.status, e.currentStep))
  {
    NewestEventWins(other, id);
    var t := Delivered(EMPTY_TABLE, other);
    var n :| Newest(other, id, n) && Shows(t, id, n);
    assert Newest(events, id, n);
  }

  /** All deliveries of the same events agree on a job's status and step exactly when its newest events do. */
  lemma StatusAgreesIff(events: seq<JobEvent>, id: nat, e: JobEvent)
    requires Newest(events, id, e)
    ensures StatusAgrees(events, id) <==> NewestShareStatus(events, id, e)
  {
    if NewestShareStatus(events, id, e) {
      forall first, second | SameEvents(first, events) && SameEvents(second, events)
        ensures StatusOf(Delivered(EMPTY_TABLE, first), id) == StatusOf(Delivered(EMPTY_TABLE, second), id)
      {
        StatusOfNewest(events, first, id, e);
        StatusOfNewest(events, second, id, e);
      }
    } else {
      var n :| Newest(events, id, n) && !(n.status == e.status && n.currentStep == e.currentStep);
      NewestFirst(events, id, e);
      NewestFirst(events, id, n);
    }
  }

  // ----- when a field does not depend on the order -----

  /** What a job shows in a field, if it is known. */
  function FieldOf(t: Table, id: nat, f: Field): Option<Value> {
    if id in t.jobs then Some(ValueOf(t.jobs[id].fields, f)) else None
  }

  /** Whatever the order and repetition, the same events leave the same value. */
  ghost predicate FieldAgrees(events: seq<JobEvent>, id: nat, f: Field) {
    forall first, second :: SameEvents(first, events) && SameEvents(second, events) ==>
      FieldOf(Delivered(EMPTY_TABLE, first), id, f) == FieldOf(Delivered(EMPTY_TABLE, second), id, f)
  }

  /** What the event shows in a field of a job not known before. */
  function Alone(e: JobEvent, f: Field): Value {
    Merged(map[], e, f)
  }

  ghost predicate NewestCarry(events: seq<JobEvent>, id: nat, f: Field) {
    forall n :: Newest(events, id, n) ==> Carries(n, f)
  }

  ghost predicate NewestShare(events: seq<JobEvent>, id: nat, e: JobEvent, f: Field) {
    forall n :: Newest(events, id, n) ==> Alone(n, f) == Alone(e, f)
  }

  /** No event of the job can leave another value than `v`. */
  ghost predicate Only(events: seq<JobEvent>, id: nat, v: Value, f: Field) {
    forall g :: g in events && g.id == Some(id) ==> Alone(g, f) == v || Alone(g, f) == Null
  }

  /** A field shows the newest events' value whenever all of them carry that one value. */
  lemma {:induction false} FieldOfNewest(events: seq<JobEvent>, id: nat, e: JobEvent, f: Field)
    requires Newest(events, id, e) && NewestCarry(events, id, f) && NewestShare(events, id, e, f)
    ensures FieldOf(Delivered(EMPTY_TABLE, events), id, f) == Some(e.fields[f])
  {
    NewestEventWins(events, id);
    var t := Delivered(EMPTY_TABLE, events);
    var n :| Newest(events, id, n) && Shows(t, id, n);
  }

  /** The job shows `v` in the field or nothing, and `v` if its event does so on its own. */
  ghost predicate ShowsOnly(t: Table, id: nat, n: JobEvent, v: Value, f: Field) {
    && id in t.versions && id in t.jobs && t.versions[id] == VersionOf(n)
    && (ValueOf(t.jobs[id].fields, f) == v || ValueOf(t.jobs[id].fields, f) == Null)
    && (Alone(n, f) == v ==> ValueOf(t.jobs[id].fields, f) == v)
  }

  lemma AcceptedShowsOnly(t: Table, e: JobEvent, id: nat, v: Value, f: Field)
    requires e.id == Some(id) && (id in t.versions ==> t.versions[id] < VersionOf(e))
    requires id in t.jobs ==> ValueOf(t.jobs[id].fields, f) == v || ValueOf(t.jobs[id].fields, f) == Null
    requires Alone(e, f) == v || Alone(e, f) == Null
    ensures ShowsOnly(Applied(t, e), id, e, v, f)
  {
  }

  lemma RefusedShowsOnly(t: Table, e: JobEvent, id: nat, n: JobEvent, v: Value, f: Field)
    requires ShowsOnly(t, id, n, v, f) && (e.id == Some(id) ==> VersionOf(e) <= t.versions[id])
    ensures ShowsOnly(Applied(t, e), id, n, v, f)
  {
  }

  /** If no event can leave another value, the field shows it once a newest event did. */
  lemma {:induction false} OnlyValueShows(events: seq<JobEvent>, id: nat, e: JobEvent, v: Value, f: Field)
    returns (n: JobEvent)
    requires Only(events, id, v, f) && e in events && e.id == Some(id)
    ensures Newest(events, id, n) && ShowsOnly(Delivered(EMPTY_TABLE, events), id, n, v, f)
    decreases |events|
  {
    var front, last := events[..|events| - 1], events[|events| - 1];
    assert events == front + [last];
    var before := Delivered(EMPTY_TABLE, front);
    NewestEventWins(front, id);
    if g :| g in front && g.id == Some(id) {
      n := OnlyValueShows(front, id, g, v, f);
      if last.id == Some(id) && VersionOf(last) > before.versions[id] {
        AcceptedShowsOnly(before, last, id, v, f);
        n := last;
      } else {
        RefusedShowsOnly(before, last, id, n, v, f);
      }
    } else {
      AcceptedShowsOnly(before, last, id, v, f);
      n := last;
    }
  }

  lemma {:induction false} SameField(events: seq<JobEvent>, other: seq<JobEvent>, id: nat, e: JobEvent, f: Field)
    requires Newest(events, id, e) && NewestShare(events, id, e, f) && SameEvents(other, events)
    requires NewestCarry(events, id, f) || Only(events, id, Alone(e, f), f)
    ensures FieldOf(Delivered(EMPTY_TABLE, other), id, f) == Some(Alone(e, f))
  {
    assert forall n :: Newest(other, id, n) <==> Newest(events, id, n);
    NewestEventWins(other, id);
    if NewestCarry(events, id, f) {
      FieldOfNewest(other, id, e, f);
    } else {
      var n := OnlyValueShows(other, id, e, Alone(e, f), f);
      assert Newest(events, id, n);
    }
  }

  /** A newest event without the field shows its own value if it comes first, and an older one's if that does. */
  lemma {:induction false} KeptFieldDiffers(events: seq<JobEvent>, id: nat, n: JobEvent, g: JobEvent, f: Field)
    requires Newest(events, id, n) && !Carries(n, f)
    requires g in events && g.id == Some(id) && VersionOf(g) < VersionOf(n) && Alone(g, f) != Null
    ensures SameEvents([g, n] + events, events)
    ensures FieldOf(Delivered(EMPTY_TABLE, [g, n] + events), id, f) == Some(Alone(g, f))
  {
    Repeated([g, n], events);
    TwoEvents(g, n);
    NewestIsKept([g, n], events, id, VersionOf(n), Merge(Some(Merge(None, g)), n));
  }

  lemma {:induction false} Disagree(events: seq<JobEvent>, first: seq<JobEvent>, second: seq<JobEvent>, id: nat,
                                    f: Field)
    requires SameEvents(first, events) && SameEvents(second, events)
    requires FieldOf(Delivered(EMPTY_TABLE, first), id, f) != FieldOf(Delivered(EMPTY_TABLE, second), id, f)
    ensures !FieldAgrees(events, id, f)
  {
  }

  lemma NewestDiffer(events: seq<JobEvent>, id: nat, e: JobEvent, n: JobEvent, f: Field)
    requires Newest(events, id, e) && Newest(events, id, n) && Alone(n, f) != Alone(e, f)
    ensures !FieldAgrees(events, id, f)
  {
    NewestFirst(events, id, e);
    NewestFirst(events, id, n);
    Disagree(events, [e] + events, [n] + events, id, f);
  }

  lemma FieldDiffers(events: seq<JobEvent>, id: nat, e: JobEvent, f: Field)
    requires Newest(events, id, e)
    requires !(NewestShare(events, id, e, f) && (NewestCarry(events, id, f) || Only(events, id, Alone(e, f), f)))
    ensures !FieldAgrees(events, id, f)
  {
    if n :| Newest(events, id, n) && Alone(n, f) != Alone(e, f) {
      NewestDiffer(events, id, e, n, f);
    } else {
      var n :| Newest(events, id, n) && !Carries(n, f);
      var g :| g in events && g.id == Some(id) && Alone(g, f) != Alone(e, f) && Alone(g, f) != Null;
      assert !Newest(events, id, g);
      KeptFieldDiffers(events, id, n, g, f);
      NewestFirst(events, id, e);
      Disagree(events, [g, n] + events, [e] + events, id, f);
    }
  }

  /** All deliveries of the same events agree on a field exactly when its newest events show one value on their own
      and either all carry it or no event of the job leaves another. */
  lemma FieldAgreesIff(events: seq<JobEvent>, id: nat, e: JobEvent, f: Field)
    requires Newest(events, id, e)
    ensures FieldAgrees(events, id, f) <==>
              NewestShare(events, id, e, f) && (NewestCarry(events, id, f) || Only(events, id, Alone(e, f), f))
  {
    if NewestShare(events, id, e, f) && (NewestCarry(events, id, f) || Only(events, id, Alone(e, f), f)) {
      forall first, second | SameEvents(first, events) && SameEvents(second, events)
        ensures FieldOf(Delivered(EMPTY_TABLE, first), id, f) == FieldOf(Delivered(EMPTY_TABLE, second), id, f)
      {
        SameField(events, first, id, e, f);
        SameField(events, second, id, e, f);
      }
    } else {
      FieldDiffers(events, id, e, f);
    }
  }

  lemma FixedFallback(e: JobEvent, g: JobEvent, f: Field)
    requires f != CreatedAt
    ensures Fallback(g, f) == Fallback(e, f)
    ensures Alone(g, f) == if Carries(g, f) then g.fields[f] else Fallback(e, f)
  {
  }

  ghost predicate NewestCarryOne(events: seq<JobEvent>, id: nat, f: Field, v: Value) {
    forall n :: Newest(events, id, n) ==> Carries(n, f) && n.fields[f] == v
  }

  ghost predicate CarryOnly(events: seq<JobEvent>, id: nat, f: Field, v: Value) {
    forall g :: g in events && g.id == Some(id) && Carries(g, f) ==> g.fields[f] == v
  }

  lemma SharedFallback(events: seq<JobEvent>, id: nat, e: JobEvent, f: Field)
    requires Newest(events, id, e) && f != CreatedAt
    requires NewestShare(events, id, e, f) && !NewestCarry(events, id, f)
    ensures Alone(e, f) == Fallback(e, f)
    ensures Only(events, id, Alone(e, f), f) <==> CarryOnly(events, id, f, Fallback(e, f))
  {
    var n :| Newest(events, id, n) && !Carries(n, f);
    FixedFallback(e, n, f);
    forall g | g in events && g.id == Some(id)
      ensures (Alone(g, f) == Alone(e, f) || Alone(g, f) == Null) <==>
                (Carries(g, f) ==> g.fields[f] == Fallback(e, f))
    {
      FixedFallback(e, g, f);
    }
  }

  lemma CarryingOnly(events: seq<JobEvent>, id: nat, e: JobEvent, f: Field)
    requires Newest(events, id, e) && f != CreatedAt && CarryOnly(events, id, f, Fallback(e, f))
    ensures NewestShare(events, id, e, f) && Only(events, id, Alone(e, f), f)
  {
    forall g | g in events && g.id == Some(id) ensures Alone(g, f) == Alone(e, f) {
      FixedFallback(e, g, f);
      FixedFallback(e, e, f);
    }
  }

  /** For every field but the creation time, which falls back to another field of the event: its newest events carry
      it with one value, or every event that carries it carries the default. */
  lemma FixedFieldAgreesIff(events: seq<JobEvent>, id: nat, e: JobEvent, f: Field)
    requires Newest(events, id, e) && f != CreatedAt
    ensures FieldAgrees(events, id, f) <==>
              NewestCarryOne(events, id, f, ValueOf(e.fields, f)) || CarryOnly(events, id, f, Fallback(e, f))
  {
    FieldAgreesIff(events, id, e, f);
    if CarryOnly(events, id, f, Fallback(e, f)) {
      CarryingOnly(events, id, e, f);
    } else if NewestShare(events, id, e, f) && !NewestCarry(events, id, f) {
      SharedFallback(events, id, e, f);
    }
  }

  lemma TwoShow(e: JobEvent, g: JobEvent, id: nat, f: Field)
    requires e.id == g.id == Some(id)
    ensures FieldOf(Delivered(EMPTY_TABLE, [e, g]), id, f) ==
            Some(if VersionOf(g) <= VersionOf(e) || (!Carries(g, f) && Alone(e, f) != Null) then Alone(e, f)
                 else Alone(g, f))
  {
    TwoEvents(e, g);
  }

  /** A newer event without a progress keeps whatever record arrived before it. */
  lemma ProgressDependsOnOrder()
    ensures var older := JobEvent(Some(1), Some(1), "processing", None, map[Progress := Number(40)]);
            var newer := JobEvent(Some(1), Some(2), "processing", None, map[]);
            && FieldOf(Delivered(EMPTY_TABLE, [older, newer]), 1, Progress) == Some(Number(40))
            && FieldOf(Delivered(EMPTY_TABLE, [newer, older]), 1, Progress) == Some(Number(0))
  {
    var older := JobEvent(Some(1), Some(1), "processing", None, map[Progress := Number(40)]);
    var newer := JobEvent(Some(1), Some(2), "processing", None, map[]);
    TwoShow(older, newer, 1, Progress);
    TwoShow(newer, older, 1, Progress);
  }

  /** A snapshot names no result. If it arrives before the event of its version, the result is never shown. */
  lemma SnapshotHidesResult()
    ensures var snapshot := JobEvent(Some(1), Some(5), "waiting_user", None, map[Progress := Number(90)]);
            var event := snapshot.(fields := snapshot.fields[Outcome := Text("questions")]);
            && FieldOf(Delivered(EMPTY_TABLE, [event, snapshot]), 1, Outcome) == Some(Text("questions"))
            && FieldOf(Delivered(EMPTY_TABLE, [snapshot, event]), 1, Outcome) == Some(Null)
  {
    var snapshot := JobEvent(Some(1), Some(5), "waiting_user", None, map[Progress := Number(90)]);
    var event := snapshot.(fields := snapshot.fields[Outcome := Text("questions")]);
    TwoShow(event, snapshot, 1, Outcome);
    TwoShow(snapshot, event, 1, Outcome);
  }

  // ----- the other writers of the table -----

  /** The ids and records that a REST call lists. */
  type Listing = seq<(nat, Job)>

  datatype Operation =
    | Receive(event: JobEvent)
    | Remember(id: nat, job: Job)
    | Refresh(listing: Listing)
    | ClearCompleted

  /** `over` spread over `under`: a key of `over` counts even if its value is `Null`. */
  function Overlay(under: Job, over: Job): Job {
    Job(over.status, over.currentStep, under.fields + over.fields)
  }

  function Remembered(t: Table, id: nat, job: Job): Table {
    t.(jobs := t.jobs[id := if id in t.jobs then Overlay(t.jobs[id], job) else job])
  }

  /** A listed job fills what the record lacks. */
  function Filled(t: Table, id: nat, job: Job): Table {
    t.(jobs := t.jobs[id := if id in t.jobs then Overlay(job, t.jobs[id]) else job])
  }

  function Refreshed(t: Table, listing: Listing): Table
    decreases |listing|
  {
    if listing == [] then t
    else
      var last := listing[|listing| - 1];
      Filled(Refreshed(t, listing[..|listing| - 1]), last.0, last.1)
  }

  predicate Completed(t: Table, id: nat) {
    id in t.jobs && t.jobs[id].status == "completed"
  }

  function CompletedIds(t: Table): set<nat> {
    set id | id in t.jobs && Completed(t, id)
  }

  function Without(t: Table, gone: set<nat>): Table {
    Table(map id | id in t.jobs && id !in gone :: t.jobs[id],
          map id | id in t.versions && id !in gone :: t.versions[id])
  }

  function Cleared(t: Table): Table {
    Without(t, CompletedIds(t))
  }

  /** A clearing takes away exactly the jobs that show as completed, and their versions with them. */
  lemma ClearingTells(t: Table, id: nat)
    ensures var u := Perform(t, ClearCompleted);
            var gone := id in t.jobs && t.jobs[id].status == "completed";
            && (id in u.jobs <==> id in t.jobs && !gone) && (id in u.jobs ==> u.jobs[id] == t.jobs[id])
            && (id in u.versions <==> id in t.versions && !gone)
            && (id in u.versions ==> u.versions[id] == t.versions[id])
  {
  }

  lemma WithoutOneMore(t: Table, gone: set<nat>, id: nat)
    ensures Without(t, gone).jobs - {id} == Without(t, gone + {id}).jobs
    ensures Without(t, gone).versions - {id} == Without(t, gone + {id}).versions
  {
  }

  function Perform(t: Table, op: Operation): Table {
    match op
    case Receive(e) => Applied(t, e)
    case Remember(id, job) => Remembered(t, id, job)
    case Refresh(listing) => Refreshed(t, listing)
    case ClearCompleted => Cleared(t)
  }

  function Replay(t: Table, ops: seq<Operation>): Table
    decreases |ops|
  {
    if ops == [] then t else Perform(Replay(t, ops[..|ops| - 1]), ops[|ops| - 1])
  }

  /** A job with an accepted version has a record with every key. */
  ghost predicate Consistent(t: Table) {
    forall id :: id in t.versions ==> id in t.jobs && forall f: Field :: f in t.jobs[id].fields
  }

  /** A list response never rolls a job back that an event has written. */
  lemma {:induction false} RefreshNeverRollsBack(t: Table, listing: Listing, id: nat)
    requires Consistent(t)
    ensures var u := Refreshed(t, listing);
            && u.versions == t.versions && Consistent(u)
            && (id in t.versions ==> u.jobs[id] == t.jobs[id])
    decreases |listing|
  {
    if listing != [] {
      var front, last := listing[..|listing| - 1], listing[|listing| - 1];
      RefreshNeverRollsBack(t, front, id);
      RefreshNeverRollsBack(t, front, last.0);
      var before := Refreshed(t, front);
      if last.0 in t.versions {
        assert last.1.fields + before.jobs[last.0].fields == before.jobs[last.0].fields;
      }
    }
  }

  lemma PerformKeepsConsistent(t: Table, op: Operation)
    requires Consistent(t)
    ensures Consistent(Perform(t, op))
  {
    if op.Refresh? {
      RefreshNeverRollsBack(t, op.listing, 0);
    }
  }

  /** Over every history a job with an accepted version has a complete record. */
  lemma {:induction false} ReplayKeepsConsistent(t: Table, ops: seq<Operation>)
    requires Consistent(t)
    ensures Consistent(Replay(t, ops))
    decreases |ops|
  {
    if ops != [] {
      ReplayKeepsConsistent(t, ops[..|ops| - 1]);
      PerformKeepsConsistent(Replay(t, ops[..|ops| - 1]), ops[|ops| - 1]);
    }
  }

  /** The operations deliver no event of the job newer than `version`, and none clears the table. */
  ghost predicate NothingNewer(ops: seq<Operation>, id: nat, version: nat) {
    forall k :: 0 <= k < |ops| ==>
      && !ops[k].ClearCompleted?
      && (ops[k].Receive? && ops[k].event.id == Some(id) ==> VersionOf(ops[k].event) <= version)
  }

  /** A record after the seeds among the operations, in their order. */
  function Seeded(job: Job, ops: seq<Operation>, id: nat): Job
    decreases |ops|
  {
    if ops == [] then job
    else
      var before, last := Seeded(job, ops[..|ops| - 1], id), ops[|ops| - 1];
      if last.Remember? && last.id == id then Overlay(before, last.job) else before
  }

  /** Once its newest event is in, only seeds write a job's record, and nothing its version. */
  lemma {:induction false} SeedsDecide(t: Table, ops: seq<Operation>, id: nat)
    requires Consistent(t) && id in t.versions && NothingNewer(ops, id, t.versions[id])
    ensures var u := Replay(t, ops);
            id in u.versions && u.versions[id] == t.versions[id] && id in u.jobs
            && u.jobs[id] == Seeded(t.jobs[id], ops, id)
    decreases |ops|
  {
    if ops != [] {
      var front, last := ops[..|ops| - 1], ops[|ops| - 1];
      SeedsDecide(t, front, id);
      ReplayKeepsConsistent(t, front);
      if last.Refresh? {
        RefreshNeverRollsBack(Replay(t, front), last.listing, id);
      }
    }
  }

  /** The record of the last seed of the job, if there is one. */
  function LastSeed(ops: seq<Operation>, id: nat): Option<Job>
    decreases |ops|
  {
    if ops == [] then None
    else
      var last := ops[|ops| - 1];
      if last.Remember? && last.id == id then Some(last.job) else LastSeed(ops[..|ops| - 1], id)
  }

  lemma {:induction false} SeededStatus(job: Job, ops: seq<Operation>, id: nat)
    ensures Seeded(job, ops, id).status ==
            match LastSeed(ops, id) { case None => job.status case Some(seed) => seed.status }
    decreases |ops|
  {
    if ops != [] {
      SeededStatus(job, ops[..|ops| - 1], id);
    }
  }

  /** After its newest event, whatever else is delivered, listed or seeded, a job keeps that event's version, and shows
      its status exactly when no later seed, or the last one, says otherwise. */
  lemma {:induction false} NewestStaysIff(t: Table, e: JobEvent, ops: seq<Operation>, id: nat)
    requires Consistent(t) && e.id == Some(id) && (id in t.versions ==> t.versions[id] < VersionOf(e))
    requires NothingNewer(ops, id, VersionOf(e))
    ensures var u := Replay(Applied(t, e), ops);
            && id in u.versions && u.versions[id] == VersionOf(e) && id in u.jobs
            && (u.jobs[id].status == e.status <==>
                  LastSeed(ops, id).None? || LastSeed(ops, id).value.status == e.status)
            && (LastSeed(ops, id).None? ==> u.jobs[id] == Applied(t, e).jobs[id])
  {
    var s := Applied(t, e);
    PerformKeepsConsistent(t, Receive(e));
    SeedsDecide(s, ops, id);
    SeededStatus(s.jobs[id], ops, id);
    if LastSeed(ops, id).None? {
      NoSeeds(s.jobs[id], ops, id);
    }
  }

  lemma {:induction false} NoSeeds(job: Job, ops: seq<Operation>, id: nat)
    requires LastSeed(ops, id).None?
    ensures Seeded(job, ops, id) == job
    decreases |ops|
  {
    if ops != [] {
      NoSeeds(job, ops[..|ops| - 1], id);
    }
  }

  /** A seed that arrives late hides the newest event, and delivering that event again does not help. */
  lemma SeedMayHideNewest()
    ensures var done := JobEvent(Some(1), Some(3), "completed", None, map[]);
            var seed := Job("pending", None, map[]);
            var u := Applied(Remembered(Applied(EMPTY_TABLE, done), 1, seed), done);
            1 in u.jobs && u.jobs[1].status == "pending"
  {
  }

  /** An event no newer than what was accepted changes the table after a clearing exactly when the job was cleared:
      its version is forgotten with its record, so a late duplicate brings it back. */
  lemma ClearedComesBackIff(t: Table, e: JobEvent, id: nat)
    requires e.id == Some(id) && id in t.versions && VersionOf(e) <= t.versions[id]
    ensures Applied(Cleared(t), e) != Cleared(t) <==> Completed(t, id)
    ensures Completed(t, id) ==> var u := Applied(Cleared(t), e); id in u.jobs && u.jobs[id] == Merge(None, e)
  {
    if Completed(t, id) {
      assert id !in Cleared(t).jobs && id !in Cleared(t).versions;
    } else {
      assert id in Cleared(t).versions;
    }
  }

  class JobStore {
    var jobs: map<nat, Job>
    var versions: map<nat, nat>

    constructor ()
      ensures View() == EMPTY_TABLE
    {
      jobs, versions := map[], map[];
    }

    function View(): Table
      reads this
    {
      Table(jobs, versions)
    }

    method RememberJob(id: nat, job: Job)
      modifies this
      ensures View() == Remembered(old(View()), id, job)
    {
      jobs := jobs[id := if id in jobs then Overlay(jobs[id], job) else job];
    }

    method ApplyJobEvent(e: JobEvent)
      modifies this
      ensures View() == Applied(old(View()), e)
    {
      var version := if e.version.Some? then e.version.value else 0;
      if e.id.None? {
        return;
      }
      var id := e.id.value;
      var known: int := if id in versions then versions[id] else -1;
      if version <= known {
        return;
      }
      versions := versions[id := version];
      var held := if id in jobs then jobs[id].fields else map[];
      jobs := jobs[id := Job(e.status, e.currentStep, map f: Field | true :: Merged(held, e, f))];
    }

    method ApplySnapshot(items: seq<JobEvent>)
      modifies this
      ensures View() == Delivered(old(View()), items)
    {
      var i := 0;
      while i < |items|
        invariant 0 <= i <= |items| && View() == Delivered(old(View()), items[..i])
      {
        assert items[..i + 1] == items[..i] + [items[i]];
        DeliveredOn(old(View()), items[..i], items[i]);
        ApplyJobEvent(items[i]);
        i := i + 1;
      }
      assert items[..i] == items;
    }

    method RefreshFromRest(listing: Listing)
      modifies this
      ensures View() == Refreshed(old(View()), listing)
    {
      var i := 0;
      while i < |listing|
        invariant 0 <= i <= |listing| && View() == Refreshed(old(View()), listing[..i])
      {
        assert listing[..i + 1][..i] == listing[..i];
        var (id, job) := listing[i];
        jobs := jobs[id := if id in jobs then Overlay(job, jobs[id]) else job];
        i := i + 1;
      }
      assert listing[..i] == listing;
    }

    method ClearOne(id: nat, ghost was: Table, ghost gone: set<nat>) returns (cleared: bool)
      requires View() == Without(was, gone) && id in was.jobs && id !in gone
      modifies this
      ensures cleared <==> id in CompletedIds(was)
      ensures View() == Without(was, if cleared then gone + {id} else gone)
    {
      assert jobs[id] == was.jobs[id];
      cleared := jobs[id].status == "completed";
      if cleared {
        WithoutOneMore(was, gone, id);
        jobs := jobs - {id};
        versions := versions - {id};
      }
    }

    /** Drop every completed job with its version, and say how many there were. */
    method ClearCompleted() returns (removed: nat)
      modifies this
      ensures View() == Cleared(old(View())) && removed == |CompletedIds(old(View()))|
    {
      ghost var was := View();
      ghost var completed := CompletedIds(was);
      var todo := jobs.Keys;
      removed := 0;
      NothingGone(was);
      while todo != {}
        invariant todo <= was.jobs.Keys && removed == |completed - todo| && View() == Without(was, completed - todo)
        decreases |todo|
      {
        var id :| id in todo;
        OneLessToDo(completed, todo, id);
        var cleared := ClearOne(id, was, completed - todo);
        todo := todo - {id};
        removed := removed + if cleared then 1 else 0;
      }
      assert completed - {} == completed;
    }
  }

  lemma NothingGone(t: Table)
    ensures CompletedIds(t) - t.jobs.Keys == {} && Without(t, {}) == t
  {
  }

  lemma OneLessToDo(completed: set<nat>, todo: set<nat>, id: nat)
    requires id in todo
    ensures completed - (todo - {id}) == if id in completed then (completed - todo) + {id} else completed - todo
    ensures |completed - (todo - {id})| == |completed - todo| + if id in completed then 1 else 0
    ensures |todo - {id}| < |todo|
  {
    if id in completed {
      assert completed - (todo - {id}) == (completed - todo) + {id};
    } else {
      assert completed - (todo - {id}) == completed - todo;
    }
    assert todo == (todo - {id}) + {id};
  }
}
