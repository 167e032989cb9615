/**
 The sample tracking screen: the sample list filtered by a search term and a
 status, the "time since received" label, the three-step progress timeline
 and the estimated completion time of a sample in processing.
 */
module SampleTracking {
  import opened Seqs
  import opened Text
  import opened Time
  import opened LabTypes

  /** The status choice: "all" or the name of one status. */
  predicate StatusMatches(s: Sample, statusFilter: string)
  {
    statusFilter == "all" || StatusName(s.status) == statusFilter
  }

  predicate SampleMatches(s: Sample, term: string, statusFilter: string)
  {
    (Matches(s.id, term) || Matches(s.patientName, term) || Matches(s.testType.name, term))
    && StatusMatches(s, statusFilter)
  }

  /**
   `filteredSamples`: the samples whose id, patient name or test name contains
   the search term (ignoring ASCII case) and whose status the status choice
   admits, in order; with no term and "all" every sample is shown.
   */
  function FilteredSamples(samples: seq<Sample>, term: string, statusFilter: string): (r: seq<Sample>)
    ensures forall x :: x in r <==> x in samples && SampleMatches(x, term, statusFilter)
    ensures forall x :: multiset(r)[x] == if SampleMatches(x, term, statusFilter) then multiset(samples)[x] else 0
    ensures IsSubsequence(r, samples)
    ensures term == "" && statusFilter == "all" ==> r == samples
  {
    FilterIsSubsequence(samples, (x: Sample) => SampleMatches(x, term, statusFilter));
    FilterMultiplicity(samples, (x: Sample) => SampleMatches(x, term, statusFilter));
    EmptyTermMatchesAll();
    Filter(samples, (x: Sample) => SampleMatches(x, term, statusFilter))
  }

  /** Status names are distinct and none of them is "all". */
  lemma StatusNamesDistinct(a: SampleStatus, b: SampleStatus)
    ensures StatusName(a) == StatusName(b) <==> a == b
    ensures StatusName(a) != "all"
  {
  }

  /** Choosing a status by its name shows exactly the matching samples with that status. */
  lemma FilterByStatus(samples: seq<Sample>, term: string, st: SampleStatus)
    ensures forall x :: x in FilteredSamples(samples, term, StatusName(st)) <==>
      x in samples && x.status == st && (Matches(x.id, term) || Matches(x.patientName, term) || Matches(x.testType.name, term))
  {
    forall x: Sample ensures StatusMatches(x, StatusName(st)) <==> x.status == st {
      StatusNamesDistinct(x.status, st);
    }
  }

  /** The elapsed-time label: hours and minutes once an hour has passed, else minutes alone. */
  datatype Elapsed = HoursMinutes(hours: int, minutes: int) | MinutesOnly(minutes: int)

  /**
   `getTimeElapsed`: whole hours since receipt, and the whole minutes of the
   hour begun; the hours are shown only when positive. The minutes come from
   JavaScript's `%`, so for a receipt time in the future they are zero or
   negative.
   */
  function TimeElapsed(receivedAt: int, now: int): (r: Elapsed)
    ensures r.HoursMinutes? <==> now - receivedAt >= MsPerHour
    ensures r.HoursMinutes? ==> 0 <= r.minutes < 60
    ensures r.HoursMinutes? ==>
      r.hours * MsPerHour + r.minutes * MsPerMinute <= now - receivedAt < r.hours * MsPerHour + (r.minutes + 1) * MsPerMinute
    ensures r.MinutesOnly? && now >= receivedAt ==> 0 <= r.minutes < 60
    ensures r.MinutesOnly? && now >= receivedAt ==>
      r.minutes * MsPerMinute <= now - receivedAt < (r.minutes + 1) * MsPerMinute
    ensures r.MinutesOnly? && now < receivedAt ==> -60 <= r.minutes <= 0
  {
    var diff := now - receivedAt;
    var hours := FloorDiv(diff, MsPerHour);
    var rem := JsRem(diff, MsPerHour);
    var minutes := FloorDiv(rem, MsPerMinute);
    MinutesOfHour(rem);
    if hours > 0 then
      HoursMinutes(hours, minutes)
    else
      MinutesOnly(minutes)
  }

  /** Whole minutes of a remainder modulo an hour lie between -60 and 59. */
  lemma MinutesOfHour(rem: int)
    requires -MsPerHour < rem < MsPerHour
    ensures -60 <= FloorDiv(rem, MsPerMinute) < 60
    ensures rem >= 0 ==> 0 <= FloorDiv(rem, MsPerMinute)
    ensures rem <= 0 ==> FloorDiv(rem, MsPerMinute) <= 0
  {
  }

  /** A step of the progress timeline. */
  datatype Step = Done | InProgress | Pending

  datatype Timeline = Timeline(received: Step, processing: Step, completed: Step)

  /**
   The progress timeline: receipt is always done; processing is done once
   there is a processing time, in progress while the status says processing,
   and pending otherwise; completion is done once there is a completion time.
   */
  function ProgressTimeline(s: Sample): (t: Timeline)
    ensures t.received == Done
    ensures t.processing == Done <==> s.processedAt.Some?
    ensures t.processing == InProgress <==> s.processedAt.None? && s.status == Processing
    ensures t.completed == Done <==> s.completedAt.Some?
    ensures t.completed != InProgress
  {
    Timeline(
      Done,
      if s.processedAt.Some? then Done else if s.status == Processing then InProgress else Pending,
      if s.completedAt.Some? then Done else Pending)
  }

  /**
   The estimated completion time, shown only for a sample in processing: the
   receipt time plus the test's duration in minutes.
   */
  function EstimatedCompletion(s: Sample): (r: Option<int>)
    ensures r.Some? <==> s.status == Processing
    ensures r.Some? ==> r.value - s.receivedAt == s.testType.duration * MsPerMinute
  {
    if s.status == Processing then Some(s.receivedAt + s.testType.duration * MsPerMinute) else None
  }

  /**
   The timeline and the estimate agree: a processing step shown in progress
   always comes with an estimate, and before a processing time is recorded the
   estimate is shown only with the step in progress.
   */
  lemma TimelineAgreesWithEstimate(s: Sample)
    ensures ProgressTimeline(s).processing == InProgress ==> EstimatedCompletion(s).Some?
    ensures s.processedAt.None? ==> (ProgressTimeline(s).processing == InProgress <==> EstimatedCompletion(s).Some?)
  {
  }

  /**
   At the estimated completion time of a test lasting `d >= 0` minutes, the
   elapsed label reads `d` minutes split into whole hours and the minutes left.
   */
  lemma ElapsedAtEstimate(s: Sample)
    requires s.status == Processing && s.testType.duration >= 0
    ensures var d := s.testType.duration;
      TimeElapsed(s.receivedAt, EstimatedCompletion(s).value) ==
        if d >= 60 then HoursMinutes(d / 60, d % 60) else MinutesOnly(d)
  {
    var d := s.testType.duration;
    var diff := d * MsPerMinute;
    var h := d / 60;
    var m := d % 60;
    assert diff == h * MsPerHour + m * MsPerMinute;
    FloorDivUnique(diff, MsPerHour, h);
    assert JsRem(diff, MsPerHour) == m * MsPerMinute;
    FloorDivUnique(m * MsPerMinute, MsPerMinute, m);
  }
}
