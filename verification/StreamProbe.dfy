/** The loop that reads the stream for one probe (src/logger.rs). */
module StreamProbe {
  import opened Base
  import opened Sleep

  /** What one wait for the stream brings. `Other` is any message the loop skips, and `Silent` the end of the
      time budget. */
  datatype Message = Row(sample: Sample) | Other | StreamError | Closed | Broken | Silent

  predicate Decisive(purpose: Purpose, s: Sample) {
    match purpose
    case Wake => WakeIsReal(s)
    case Suspend => SuspendIsActive(s)
  }

  predicate Ends(purpose: Purpose, m: Message) {
    match m
    case Row(s) => Decisive(purpose, s)
    case Other => false
    case _ => true
  }

  /** The first message that ends the loop; the length when the budget ends first. */
  function EndAt(purpose: Purpose, messages: seq<Message>): (end: nat)
    ensures end <= |messages| && (end < |messages| ==> Ends(purpose, messages[end]))
    ensures forall i :: 0 <= i < end ==> !Ends(purpose, messages[i])
  {
    if messages == [] || Ends(purpose, messages[0]) then 0 else 1 + EndAt(purpose, messages[1..])
  }

  /** The last row before `end`, if any. */
  ghost predicate LastRow(messages: seq<Message>, end: nat, quiet: Option<Sample>)
    requires end <= |messages|
  {
    match quiet
    case None => forall i :: 0 <= i < end ==> !messages[i].Row?
    case Some(s) => exists i :: 0 <= i < end && messages[i] == Row(s) && forall j :: i < j < end ==> !messages[j].Row?
  }

  /** A decisive sample wins; else the last quiet one; else what ended the wait. */
  method Listen(purpose: Purpose, messages: seq<Message>) returns (reading: StreamReading)
    ensures var end := EndAt(purpose, messages);
            end < |messages| && messages[end].Row? ==> reading == Got(messages[end].sample)
    ensures var end := EndAt(purpose, messages);
            (end < |messages| ==> !messages[end].Row?) ==>
              if exists i :: 0 <= i < end && messages[i].Row?
              then reading.Got? && LastRow(messages, end, Some(reading.sample))
              else reading == if end == |messages| || messages[end].Silent? then Timeout else Error
  {
    var quiet: Option<Sample> := None;
    var k := 0;
    while k < |messages|
      invariant 0 <= k <= |messages|
      invariant forall i :: 0 <= i < k ==> !Ends(purpose, messages[i])
      invariant LastRow(messages, k, quiet)
    {
      assert Ends(purpose, messages[k]) ==> EndAt(purpose, messages) == k;
      match messages[k] {
        case Row(sample) =>
          if Decisive(purpose, sample) {
            return Got(sample);
          }
          quiet := Some(sample);
        case Other =>
        case StreamError =>
          return if quiet.Some? then Got(quiet.value) else Error;
        case Closed =>
          return if quiet.Some? then Got(quiet.value) else Error;
        case Broken =>
          return if quiet.Some? then Got(quiet.value) else Error;
        case Silent =>
          return if quiet.Some? then Got(quiet.value) else Timeout;
      }
      k := k + 1;
    }
    return if quiet.Some? then Got(quiet.value) else Timeout;
  }

  /** A wake probe of a car in a subsystem check reports the nil row, not the timeout that follows it, so the
      check is not taken for a wake. */
  lemma NilRowBeatsTimeout(s: Sample, phase: Phase, now: Time, cfg: Config)
    requires !WakeIsReal(s) && cfg.subsystemGrace >= 1 && (phase == Asleep || phase == Startup)
    ensures AfterProbe(Wake, Got(s), phase, now, cfg) == Wait(Checking(now), cfg.asleepInterval)
    ensures AfterProbe(Wake, Timeout, phase, now, cfg) == CallVehicleData
  {
  }

  /** A row ends a wake probe unless it shows nothing at all, and a probe of a suspended car unless it shows no use;
      errors, a close, a broken stream and the end of the budget end any. */
  lemma EndsSay(purpose: Purpose, m: Message)
    ensures Ends(purpose, m) <==>
            match m
            case Row(s) => if purpose == Wake then !NilSample(s) else !QuietSample(s)
            case Other => false
            case StreamError => true
            case Closed => true
            case Broken => true
            case Silent => true
  {
    if m.Row? { SamplesSay(m.sample); }
  }
}
