/** Deadline-driven PoE loops: SnmpWriter._poe_rearm (snmp_write.py) against a port that may behave
    in any way, and the recovery rules of models.py it polls for. The clock moves while reading and
    while sleeping; a reading takes as long as it likes, and a sleep may overrun. */
module PoeControl {
  import opened Models

  datatype PoeDetect = Disabled | Searching | Delivering | Fault | Unknown

  datatype PoeStatus = PoeStatus(adminEnabled: bool, detect: PoeDetect) {
    predicate IsDelivering() { detect == Delivering }
  }

  predicate StatusOff(status: Option<PoeStatus>) {
    status.Some? && (status.value.detect == Disabled || status.value.detect == Searching)
  }

  predicate IsOff(status: Option<PoeStatus>, linkUp: bool) { StatusOff(status) && !linkUp }

  /** models.py `poe_cycle_complete`: what counts as back depends on what the port was doing. */
  predicate CycleComplete(before: Option<PoeStatus>, now: Option<PoeStatus>) {
    && now.Some?
    && if before.Some? && before.value.IsDelivering() then now.value.IsDelivering()
       else now.value.detect == Delivering || now.value.detect == Searching
  }

  /** snmp_write.py `_poe_recovered`: a cleared port has left the fault state. */
  predicate FaultCleared(before: Option<PoeStatus>, now: Option<PoeStatus>) {
    now.Some? && (now.value.detect == Delivering || now.value.detect == Searching)
  }

  /** cli_write.py's own rule for `cycle_poe`. */
  predicate CliCycled(now: Option<PoeStatus>) {
    now.Some? && now.value.IsDelivering()
  }

  /** The CLI rule is not the shared one: it rejects exactly the ports that powered nothing before
      the cycle and have detection running again. */
  lemma CliRuleIsStricter(before: Option<PoeStatus>, now: Option<PoeStatus>)
    ensures CliCycled(now) ==> CycleComplete(before, now)
    ensures CycleComplete(before, now) && !CliCycled(now) <==>
              now.Some? && now.value.detect == Searching && !(before.Some? && before.value.IsDelivering())
  {
  }

  datatype Recovery = Cycle | ClearFault | CliCycle

  predicate Recovered(rule: Recovery, before: Option<PoeStatus>, now: Option<PoeStatus>) {
    match rule
    case Cycle => CycleComplete(before, now)
    case ClearFault => FaultCleared(before, now)
    case CliCycle => CliCycled(now)
  }

  /** What each rule takes for recovery, detection state by detection state. */
  lemma RecoveredMeans(rule: Recovery, before: Option<PoeStatus>, now: Option<PoeStatus>)
    ensures Recovered(rule, before, now) <==>
              && now.Some?
              && (now.value.detect == Delivering
                  || (now.value.detect == Searching
                      && (rule == ClearFault
                          || (rule == Cycle && !(before.Some? && before.value.detect == Delivering)))))
  {
  }

  // ----- the port, its link and the clock -----

  datatype Event =
    | SetAdmin(on: bool, at: real)
    | Reset(at: real)           // the CLI's one-command re-arm
    | SawStatus(status: Option<PoeStatus>)
    | SawLink(up: bool)
    | Slept
    | Refused                   // a SET or a reset the switch did not take

  type Delay = d: real | d >= 0.0

  /** The port's behaviour: any function of everything that has happened and of the time. A SET or reset may be
      refused; a reading shows the port as it was when the reading began, and takes `reading` seconds. */
  datatype PortBehaviour = PortBehaviour(
    takes: seq<Event> -> bool,
    status: (seq<Event>, real) -> Option<PoeStatus>,
    link: (seq<Event>, real) -> bool,
    reading: seq<Event> -> Delay,
    overrun: seq<Event> -> Delay)

  class Bench {
    const port: PortBehaviour
    var now: real
    var log: seq<Event>

    constructor (port: PortBehaviour, now: real)
      ensures this.port == port && this.now == now && log == []
    {
      this.port, this.now, this.log := port, now, [];
    }

    method Status() returns (s: Option<PoeStatus>)
      modifies this
      ensures s == port.status(old(log), old(now)) && log == old(log) + [SawStatus(s)]
      ensures now == old(now) + port.reading(old(log))
    {
      s := port.status(log, now);
      now, log := now + port.reading(log), log + [SawStatus(s)];
    }

    method LinkUp() returns (up: bool)
      modifies this
      ensures up == port.link(old(log), old(now)) && log == old(log) + [SawLink(up)]
      ensures now == old(now) + port.reading(old(log))
    {
      up := port.link(log, now);
      now, log := now + port.reading(log), log + [SawLink(up)];
    }

    method Set(on: bool) returns (taken: bool)
      modifies this`log
      ensures taken == port.takes(old(log))
      ensures log == old(log) + [if taken then SetAdmin(on, now) else Refused]
    {
      taken := port.takes(log);
      log := log + [if taken then SetAdmin(on, now) else Refused];
    }

    method ResetPort() returns (taken: bool)
      modifies this`log
      ensures taken == port.takes(old(log))
      ensures log == old(log) + [if taken then Reset(now) else Refused]
    {
      taken := port.takes(log);
      log := log + [if taken then Reset(now) else Refused];
    }

    method Sleep(d: real)
      modifies this
      ensures now >= old(now) + d && log == old(log) + [Slept]
    {
      now := now + d + port.overrun(log);
      log := log + [Slept];
    }
  }

  // ----- reading a log -----

  function SetsIn(log: seq<Event>): seq<bool> {
    if log == [] then []
    else SetsIn(log[..|log| - 1]) + (if log[|log| - 1].SetAdmin? then [log[|log| - 1].on] else [])
  }

  function SleepsIn(log: seq<Event>): nat {
    if log == [] then 0
    else SleepsIn(log[..|log| - 1]) + (if log[|log| - 1].Slept? then 1 else 0)
  }

  /** The last SET of a log and its time; a reset counts as switching on. */
  function LastSet(log: seq<Event>): Option<(bool, real)> {
    if log == [] then None
    else
      match log[|log| - 1]
      case SetAdmin(on, at) => Some((on, at))
      case Reset(at) => Some((true, at))
      case _ => LastSet(log[..|log| - 1])
  }

  lemma Logged(log: seq<Event>, e: Event)
    ensures SetsIn(log + [e]) == SetsIn(log) + (if e.SetAdmin? then [e.on] else [])
    ensures SleepsIn(log + [e]) == SleepsIn(log) + (if e.Slept? then 1 else 0)
    ensures LastSet(log + [e])
         == if e.SetAdmin? then Some((e.on, e.at)) else if e.Reset? then Some((true, e.at)) else LastSet(log)
  {
    assert (log + [e])[..|log|] == log;
  }

  /** `later` continues `log` without a further SET, after `naps` more sleeps. */
  ghost predicate Continues(log: seq<Event>, later: seq<Event>, naps: nat) {
    && log <= later
    && SetsIn(later) == SetsIn(log) && LastSet(later) == LastSet(log)
    && SleepsIn(later) == SleepsIn(log) + naps
  }

  // ----- settling -----

  /** `t` is at least `within` seconds after the log's last SET, which switched the port on (or off). */
  ghost predicate Since(log: seq<Event>, on: bool, t: real, within: real) {
    LastSet(log).Some? && LastSet(log).value.0 == on && t >= LastSet(log).value.1 + within
  }

  /** Unused or searching: no power is going out. */
  ghost predicate ReadsIdle(status: Option<PoeStatus>) {
    status.Some? && (status.value.detect == Disabled || status.value.detect == Searching)
  }

  /** However the log continues, from `within` seconds after an off SET on, the port reads as off. */
  ghost predicate SettlesOff(port: PortBehaviour, within: real) {
    && (forall log, t: real {:trigger port.status(log, t)} :: Since(log, false, t, within) ==>
          ReadsIdle(port.status(log, t)))
    && (forall log, t: real {:trigger port.link(log, t)} :: Since(log, false, t, within) ==> !port.link(log, t))
  }

  /** From `within` seconds after an on SET on, the port reads as recovered. */
  ghost predicate SettlesOn(port: PortBehaviour, rule: Recovery, before: Option<PoeStatus>, within: real) {
    forall log, t: real {:trigger port.status(log, t)} :: Since(log, true, t, within) ==>
      Recovered(rule, before, port.status(log, t))
  }

  /** The port never reads as off: power is never seen to stop, or the link is never seen down. */
  ghost predicate NeverOff(port: PortBehaviour) {
    || (forall log, t: real {:trigger port.status(log, t)} :: !ReadsIdle(port.status(log, t)))
    || (forall log, t: real {:trigger port.link(log, t)} :: port.link(log, t))
  }

  /** The port never reads as having power or looking for something to power. */
  ghost predicate NeverBack(port: PortBehaviour) {
    forall log, t: real {:trigger port.status(log, t)} ::
      var s := port.status(log, t); s.Some? ==> s.value.detect != Delivering && s.value.detect != Searching
  }

  /** The port never reads as having power. */
  ghost predicate NeverDelivers(port: PortBehaviour) {
    forall log, t: real {:trigger port.status(log, t)} ::
      var s := port.status(log, t); s.Some? ==> s.value.detect != Delivering
  }

  /** A port on which the rule can never be met. */
  ghost predicate NeverRecovers(port: PortBehaviour, rule: Recovery, before: Option<PoeStatus>) {
    || NeverBack(port)
    || (NeverDelivers(port)
        && (rule == CliCycle || (rule == Cycle && before.Some? && before.value.detect == Delivering)))
  }

  /** No reading takes longer than `longest`. */
  ghost predicate ReadsWithin(port: PortBehaviour, longest: real) {
    forall log {:trigger port.reading(log)} :: port.reading(log) <= longest
  }

  /** A port that follows its last SET at once. */
  function PromptPort(): PortBehaviour {
    PortBehaviour(
      (log: seq<Event>) => true,
      (log: seq<Event>, t: real) =>
        if LastSet(log).Some? && LastSet(log).value.0 then Some(PoeStatus(true, Delivering))
        else Some(PoeStatus(false, Disabled)),
      (log: seq<Event>, t: real) => false,
      (log: seq<Event>) => 0.25,
      (log: seq<Event>) => 0.0)
  }

  /** Settling within both deadlines is possible: the prompt port does, whatever the deadlines, though its
      readings take time. */
  lemma PromptPortSettles(rule: Recovery, within: real)
    ensures forall log :: PromptPort().takes(log)
    ensures ReadsWithin(PromptPort(), 0.25) && !ReadsWithin(PromptPort(), 0.0)
    ensures SettlesOff(PromptPort(), within)
    ensures SettlesOn(PromptPort(), rule, PromptPort().status([], 0.0), within)
  {
    var port := PromptPort();
    assert forall log, t: real {:trigger port.status(log, t)} ::
      port.status(log, t) == if LastSet(log).Some? && LastSet(log).value.0 then Some(PoeStatus(true, Delivering))
                             else Some(PoeStatus(false, Disabled));
    assert forall log, t: real {:trigger port.link(log, t)} :: !port.link(log, t);
    assert forall log {:trigger port.reading(log)} :: port.reading(log) == 0.25;
    assert port.reading([]) == 0.25;
  }

  // ----- naps before a deadline -----

  /** `n` naps of `poll` seconds, each begun before a deadline `timeout` seconds out. */
  ghost predicate NapsFit(n: nat, poll: real, timeout: real) {
    n == 0 || (n - 1) as real * poll < timeout
  }

  /** An upper bound on the naps still possible with `left` seconds to the deadline. */
  function NapsLeft(left: real, poll: real): nat
    requires poll > 0.0
  {
    if left <= 0.0 then 0
    else
      DivideMonotone(0.0, left, poll);
      (left / poll).Floor + 1
  }

  lemma NapShrinks(left: real, after: real, poll: real)
    requires poll > 0.0 && left > 0.0 && after <= left - poll
    ensures NapsLeft(after, poll) < NapsLeft(left, poll)
  {
    if after > 0.0 {
      DivideMonotone(after, left - poll, poll);
      DivideUnique(left - poll, poll, left / poll - 1.0);
    }
  }

  lemma NapsOnlyShrink(left: real, after: real, poll: real)
    requires poll > 0.0 && after <= left
    ensures NapsLeft(after, poll) <= NapsLeft(left, poll)
  {
    if after > 0.0 {
      DivideMonotone(after, left, poll);
    }
  }

  /** `naps` naps into a wait of `timeout` seconds that began at `begun`. */
  ghost predicate Elapsed(begun: real, now: real, naps: nat, poll: real, timeout: real) {
    now >= begun && now >= begun + naps as real * poll && NapsFit(naps, poll, timeout)
  }

  lemma NapTaken(begun: real, before: real, after: real, naps: nat, poll: real, timeout: real)
    requires poll > 0.0 && Elapsed(begun, before, naps, poll, timeout)
    requires before < begun + timeout && after >= before + poll
    ensures Elapsed(begun, after, naps + 1, poll, timeout)
    ensures NapsLeft(begun + timeout - after, poll) < NapsLeft(begun + timeout - before, poll)
  {
    AddNaps(naps, 1, poll);
    NapShrinks(begun + timeout - before, begun + timeout - after, poll);
  }

  lemma DivideUnique(a: real, d: real, q: real)
    requires d > 0.0 && q * d == a
    ensures q == a / d
  {
  }

  lemma DivideMonotone(a: real, b: real, d: real)
    requires d > 0.0 && a <= b
    ensures a / d <= b / d
  {
    ProductMonotone(a / d, b / d, d);
  }

  lemma ProductMonotone(q: real, r: real, d: real)
    requires d > 0.0 && q * d <= r * d
    ensures q <= r
  {
  }

  // ----- the two polling phases -----

  /** One round of the first loop: status, then link. Taking at most `longest` for each of its two readings,
      it sees the port off if the port has settled by the time it begins. */
  method CheckOff(bench: Bench, ghost longest: Delay) returns (off: bool)
    modifies bench
    ensures Continues(old(bench.log), bench.log, 0) && bench.now >= old(bench.now)
    ensures ReadsWithin(bench.port, longest) ==> bench.now <= old(bench.now) + 2.0 * longest
    ensures |bench.log| == |old(bench.log)| + 2
    ensures bench.log[|bench.log| - 2].SawStatus? && bench.log[|bench.log| - 1].SawLink?
    ensures off == (ReadsIdle(bench.log[|bench.log| - 2].status) && !bench.log[|bench.log| - 1].up)
    ensures NeverOff(bench.port) ==> !off
    ensures forall within: real ::
              SettlesOff(bench.port, within) && Since(old(bench.log), false, old(bench.now), within) ==> off
  {
    var status := Look(bench);
    ghost var mid := bench.log;
    ghost var between := bench.now;
    var up := bench.LinkUp();
    Logged(mid, SawLink(up));
    off := IsOff(status, up);
    assert forall within: real :: Since(old(bench.log), false, old(bench.now), within) ==>
             Since(mid, false, between, within);
  }

  method Look(bench: Bench) returns (status: Option<PoeStatus>)
    modifies bench
    ensures Continues(old(bench.log), bench.log, 0)
    ensures status == bench.port.status(old(bench.log), old(bench.now))
            && bench.log == old(bench.log) + [SawStatus(status)]
    ensures bench.now == old(bench.now) + bench.port.reading(old(bench.log))
  {
    status := bench.Status();
    Logged(old(bench.log), SawStatus(status));
  }

  method CheckRecovered(bench: Bench, rule: Recovery, before: Option<PoeStatus>) returns (back: bool)
    modifies bench
    ensures Continues(old(bench.log), bench.log, 0)
    ensures bench.now == old(bench.now) + bench.port.reading(old(bench.log))
    ensures var status := bench.port.status(old(bench.log), old(bench.now));
            back == Recovered(rule, before, status) && bench.log == old(bench.log) + [SawStatus(status)]
  {
    var status := Look(bench);
    return Recovered(rule, before, status);
  }

  method Nap(bench: Bench, poll: real)
    modifies bench
    ensures Continues(old(bench.log), bench.log, 1) && bench.now >= old(bench.now) + poll
  {
    bench.Sleep(poll);
    Logged(old(bench.log), Slept);
  }

  /** The first loop of `_poe_rearm`. It never gives up on a port that settles two readings before the deadline. */
  method AwaitOff(bench: Bench, timeout: real, poll: real, ghost longest: Delay)
    returns (r: Result<()>, ghost naps: nat)
    requires poll > 0.0
    requires LastSet(bench.log) == Some((false, bench.now))
    modifies bench
    ensures bench.now >= old(bench.now) && NapsFit(naps, poll, timeout)
    ensures Continues(old(bench.log), bench.log, naps)
    ensures r.Ok? ==>
              && |bench.log| >= |old(bench.log)| + 2
              && EndsSeenOff(bench.log)
    ensures NeverOff(bench.port) ==> r.Err?
    ensures r.Err? ==> r.error == VerificationFailed && bench.log != [] && bench.log[|bench.log| - 1].SawStatus?
    ensures ReadsWithin(bench.port, longest) && SettlesOff(bench.port, timeout - 2.0 * longest) ==> r.Ok?
  {
    var deadline := bench.now + timeout;
    naps := 0;
    while true
      invariant Elapsed(old(bench.now), bench.now, naps, poll, timeout)
      invariant Continues(old(bench.log), bench.log, naps)
      decreases NapsLeft(deadline - bench.now, poll)
    {
      ghost var began := bench.now;
      var off := CheckOff(bench, longest);
      if off {
        return Ok(()), naps;
      }
      assert ReadsWithin(bench.port, longest) && SettlesOff(bench.port, timeout - 2.0 * longest) ==>
               bench.now < deadline;
      if bench.now >= deadline {
        var _ := Look(bench);
        return Err(VerificationFailed), naps;
      }
      NapsOnlyShrink(deadline - began, deadline - bench.now, poll);
      ghost var left := deadline - bench.now;
      Nap(bench, poll);
      NapTaken(old(bench.now), deadline - left, bench.now, naps, poll, timeout);
      naps := naps + 1;
    }
  }

  /** The second loop of `_poe_rearm`, begun at or after the SET (or reset) it waits on. */
  method AwaitRecovery(bench: Bench, rule: Recovery, before: Option<PoeStatus>, timeout: real, poll: real,
                       ghost longest: Delay)
    returns (r: Result<()>, ghost naps: nat)
    requires poll > 0.0
    requires LastSet(bench.log).Some? && LastSet(bench.log).value.0 && LastSet(bench.log).value.1 <= bench.now
    modifies bench
    ensures bench.now >= old(bench.now) && NapsFit(naps, poll, timeout)
    ensures Continues(old(bench.log), bench.log, naps)
    ensures r.Ok? ==>
              && |bench.log| > |old(bench.log)| && bench.log[|bench.log| - 1].SawStatus?
              && Recovered(rule, before, bench.log[|bench.log| - 1].status)
    ensures NeverRecovers(bench.port, rule, before) ==> r.Err?
    ensures r.Err? ==>
              && r.error == VerificationFailed && |bench.log| >= |old(bench.log)| + 2
              && bench.log[|bench.log| - 2].SawStatus? && bench.log[|bench.log| - 1].SawStatus?
    ensures ReadsWithin(bench.port, longest) && SettlesOn(bench.port, rule, before, timeout - longest) ==> r.Ok?
  {
    var deadline := bench.now + timeout;
    naps := 0;
    while true
      invariant Elapsed(old(bench.now), bench.now, naps, poll, timeout)
      invariant Continues(old(bench.log), bench.log, naps)
      decreases NapsLeft(deadline - bench.now, poll)
    {
      ghost var began := bench.now;
      var back := CheckRecovered(bench, rule, before);
      RecoveredMeans(rule, before, bench.log[|bench.log| - 1].status);
      if back {
        return Ok(()), naps;
      }
      assert ReadsWithin(bench.port, longest) && SettlesOn(bench.port, rule, before, timeout - longest) ==>
               bench.now < deadline;
      if bench.now >= deadline {
        var _ := Look(bench);
        return Err(VerificationFailed), naps;
      }
      NapsOnlyShrink(deadline - began, deadline - bench.now, poll);
      ghost var left := deadline - bench.now;
      Nap(bench, poll);
      NapTaken(old(bench.now), deadline - left, bench.now, naps, poll, timeout);
      naps := naps + 1;
    }
  }

  /** Event `k` switches the port on, right after readings that showed it idle with its link down. */
  ghost predicate OnAfterSeenOff(log: seq<Event>, k: nat) {
    && 2 <= k < |log| && log[k].SetAdmin? && log[k].on
    && log[k - 2].SawStatus? && ReadsIdle(log[k - 2].status)
    && log[k - 1].SawLink? && !log[k - 1].up
  }

  /** The last two readings of a log show the port idle with its link down. */
  ghost predicate EndsSeenOff(log: seq<Event>) {
    && |log| >= 2
    && log[|log| - 2].SawStatus? && ReadsIdle(log[|log| - 2].status)
    && log[|log| - 1].SawLink? && !log[|log| - 1].up
  }

  /** The log of one re-arm: first reading, off SET, and, once the port was seen off, the on SET. A refused SET
      ends it at once; a normal return ends on a later reading that shows recovery, judged against the first. */
  ghost predicate RearmLog(log: seq<Event>, rule: Recovery, r: Result<()>) {
    && |log| >= 2 && log[0].SawStatus?
    && (r == Err(Rejected) <==> log[|log| - 1].Refused?)
    && (SetsIn(log) == [] || SetsIn(log) == [false] || SetsIn(log) == [false, true])
    && (SetsIn(log) == [] ==> r == Err(Rejected) && |log| == 2)
    && (SetsIn(log) == [false] && r == Err(Rejected) ==> EndsSeenOff(log[..|log| - 1]))
    && (SetsIn(log) == [false, true] ==>
          r != Err(Rejected) && exists k: nat :: OnAfterSeenOff(log, k) && (r.Ok? ==> k < |log| - 1))
    && (r.Ok? ==>
          && SetsIn(log) == [false, true]
          && log[|log| - 1].SawStatus? && Recovered(rule, log[0].status, log[|log| - 1].status))
  }

  /** `_poe_rearm`: at most an off and an on SET, a number of sleeps bounded by the deadlines, and, readings
      taking at most `longest` each, no time-out for a port that settles the length of a reading round before
      each deadline. */
  method Rearm(bench: Bench, rule: Recovery, offTimeout: real, onTimeout: real, poll: real, ghost longest: Delay)
    returns (r: Result<()>)
    requires poll > 0.0 && bench.log == []
    modifies bench
    ensures RearmLog(bench.log, rule, r)
    ensures NeverOff(bench.port) ==> r.Err? && SetsIn(bench.log) != [false, true]
    ensures NeverRecovers(bench.port, rule, bench.port.status([], old(bench.now))) ==> r.Err?
    ensures NapBudget(SleepsIn(bench.log), poll, offTimeout, onTimeout)
    ensures (ReadsWithin(bench.port, longest) && SettlesOff(bench.port, offTimeout - 2.0 * longest)
             && SettlesOn(bench.port, rule, bench.port.status([], old(bench.now)), onTimeout - longest)) ==>
              r.Ok? || r == Err(Rejected)
  {
    var before := Look(bench);
    assert bench.log == [SawStatus(before)];
    r := RearmFrom(bench, rule, before, offTimeout, onTimeout, poll, longest);
  }

  /** The re-arm after its first reading. */
  method RearmFrom(bench: Bench, rule: Recovery, before: Option<PoeStatus>, offTimeout: real, onTimeout: real,
                   poll: real, ghost longest: Delay)
    returns (r: Result<()>)
    requires poll > 0.0 && bench.log == [SawStatus(before)]
    modifies bench
    ensures RearmLog(bench.log, rule, r)
    ensures NeverOff(bench.port) ==> r.Err? && SetsIn(bench.log) != [false, true]
    ensures NeverRecovers(bench.port, rule, before) ==> r.Err?
    ensures NapBudget(SleepsIn(bench.log), poll, offTimeout, onTimeout)
    ensures (ReadsWithin(bench.port, longest) && SettlesOff(bench.port, offTimeout - 2.0 * longest)
             && SettlesOn(bench.port, rule, before, onTimeout - longest)) ==> r.Ok? || r == Err(Rejected)
  {
    Logged([], SawStatus(before));
    assert [] + [SawStatus(before)] == [SawStatus(before)];
    ghost var offNaps;
    r, offNaps := SwitchOff(bench, offTimeout, poll, longest);
    if r.Err? {
      TotalNaps(offNaps, 0, poll, offTimeout, onTimeout);
      assert SleepsIn(bench.log) == offNaps + 0;
      FirstRecorded(SawStatus(before), bench.log, bench.log[1]);
      return;
    }
    FirstRecorded(SawStatus(before), bench.log, bench.log[1]);
    r := RearmOn(bench, rule, before, onTimeout, poll, offNaps, offTimeout, longest);
  }

  lemma FirstRecorded(first: Event, log: seq<Event>, second: Event)
    requires [first] + [second] <= log
    ensures log[0] == first && log[1] == second
  {
    assert log[0] == ([first] + [second])[0] && log[1] == ([first] + [second])[1];
  }

  /** The second half of the re-arm, once the port was seen off. */
  method RearmOn(bench: Bench, rule: Recovery, before: Option<PoeStatus>, onTimeout: real, poll: real,
                 ghost offNaps: nat, ghost offTimeout: real, ghost longest: Delay) returns (r: Result<()>)
    requires poll > 0.0 && NapsFit(offNaps, poll, offTimeout) && SleepsIn(bench.log) == offNaps
    requires |bench.log| >= 4 && bench.log[0] == SawStatus(before) && SetsIn(bench.log) == [false]
    requires EndsSeenOff(bench.log)
    modifies bench
    ensures RearmLog(bench.log, rule, r)
    ensures NeverRecovers(bench.port, rule, before) ==> r.Err?
    ensures NapBudget(SleepsIn(bench.log), poll, offTimeout, onTimeout)
    ensures ReadsWithin(bench.port, longest) && SettlesOn(bench.port, rule, before, onTimeout - longest) ==>
              r.Ok? || r == Err(Rejected)
  {
    ghost var seenOff, onNaps := bench.log, 0;
    r, onNaps := SwitchOn(bench, rule, before, onTimeout, poll, longest);
    TotalNaps(offNaps, onNaps, poll, offTimeout, onTimeout);
    assert SleepsIn(bench.log) == offNaps + onNaps;
    if r == Err(Rejected) {
      assert bench.log[..|bench.log| - 1] == seenOff && bench.log[0] == seenOff[0];
    } else {
      OnLogged(seenOff, bench.log, bench.log[|seenOff|], rule, r);
    }
  }

  lemma OnLogged(seenOff: seq<Event>, log: seq<Event>, on: Event, rule: Recovery, r: Result<()>)
    requires EndsSeenOff(seenOff) && seenOff + [on] <= log && on.SetAdmin? && on.on
    requires SetsIn(log) == [false, true] && seenOff[0].SawStatus?
    requires r != Err(Rejected) && !log[|log| - 1].Refused?
    requires r.Ok? ==> |log| >= |seenOff| + 2 && log[|log| - 1].SawStatus?
                       && Recovered(rule, seenOff[0].status, log[|log| - 1].status)
    ensures RearmLog(log, rule, r)
  {
    OnRecorded(seenOff, log, on);
    assert log[0] == (seenOff + [on])[0];
  }

  lemma OnRecorded(seenOff: seq<Event>, log: seq<Event>, on: Event)
    requires EndsSeenOff(seenOff) && seenOff + [on] <= log && on.SetAdmin? && on.on
    ensures OnAfterSeenOff(log, |seenOff|)
  {
    assert forall i :: 0 <= i < |seenOff| ==> log[i] == (seenOff + [on])[i] == seenOff[i];
    assert log[|seenOff|] == (seenOff + [on])[|seenOff|];
  }

  method SwitchOff(bench: Bench, timeout: real, poll: real, ghost longest: Delay)
    returns (r: Result<()>, ghost naps: nat)
    requires poll > 0.0
    modifies bench
    ensures NapsFit(naps, poll, timeout) && SleepsIn(bench.log) == SleepsIn(old(bench.log)) + naps
    ensures r == Err(Rejected) ==>
              bench.log == old(bench.log) + [Refused] && SetsIn(bench.log) == SetsIn(old(bench.log))
    ensures r != Err(Rejected) ==>
              && old(bench.log) + [SetAdmin(false, old(bench.now))] <= bench.log && !bench.log[|bench.log| - 1].Refused?
              && SetsIn(bench.log) == SetsIn(old(bench.log)) + [false]
    ensures r.Ok? ==> |bench.log| >= |old(bench.log)| + 3 && EndsSeenOff(bench.log)
    ensures NeverOff(bench.port) ==> r.Err?
    ensures ReadsWithin(bench.port, longest) && SettlesOff(bench.port, timeout - 2.0 * longest) ==>
              r.Ok? || r == Err(Rejected)
  {
    var taken := bench.Set(false);
    Logged(old(bench.log), if taken then SetAdmin(false, bench.now) else Refused);
    if !taken { return Err(Rejected), 0; }
    r, naps := AwaitOff(bench, timeout, poll, longest);
  }

  method SwitchOn(bench: Bench, rule: Recovery, before: Option<PoeStatus>, timeout: real, poll: real,
                  ghost longest: Delay)
    returns (r: Result<()>, ghost naps: nat)
    requires poll > 0.0
    modifies bench
    ensures NapsFit(naps, poll, timeout) && SleepsIn(bench.log) == SleepsIn(old(bench.log)) + naps
    ensures r == Err(Rejected) ==>
              bench.log == old(bench.log) + [Refused] && SetsIn(bench.log) == SetsIn(old(bench.log))
    ensures r != Err(Rejected) ==>
              && old(bench.log) + [SetAdmin(true, old(bench.now))] <= bench.log && !bench.log[|bench.log| - 1].Refused?
              && SetsIn(bench.log) == SetsIn(old(bench.log)) + [true]
    ensures r.Ok? ==>
              && |bench.log| >= |old(bench.log)| + 2 && bench.log[|bench.log| - 1].SawStatus?
              && Recovered(rule, before, bench.log[|bench.log| - 1].status)
    ensures NeverRecovers(bench.port, rule, before) ==> r.Err?
    ensures ReadsWithin(bench.port, longest) && SettlesOn(bench.port, rule, before, timeout - longest) ==>
              r.Ok? || r == Err(Rejected)
  {
    var taken := bench.Set(true);
    Logged(old(bench.log), if taken then SetAdmin(true, bench.now) else Refused);
    if !taken { return Err(Rejected), 0; }
    r, naps := AwaitRecovery(bench, rule, before, timeout, poll, longest);
  }

  /** CliWriter._poe_reset: one command, then the same wait; no step of it powers the port down. */
  method PoeReset(bench: Bench, rule: Recovery, timeout: real, poll: real, ghost longest: Delay) returns (r: Result<()>)
    requires poll > 0.0 && bench.log == []
    modifies bench
    ensures SetsIn(bench.log) == [] && NapBudget(SleepsIn(bench.log), poll, timeout, 0.0)
    ensures |bench.log| >= 2 && bench.log[0].SawStatus?
    ensures if r == Err(Rejected) then bench.log == [bench.log[0], Refused] else bench.log[1].Reset?
    ensures r.Ok? ==>
              && bench.log[|bench.log| - 1].SawStatus?
              && Recovered(rule, bench.log[0].status, bench.log[|bench.log| - 1].status)
    ensures NeverRecovers(bench.port, rule, bench.port.status([], old(bench.now))) ==> r.Err?
    ensures ReadsWithin(bench.port, longest)
            && SettlesOn(bench.port, rule, bench.port.status([], old(bench.now)), timeout - longest) ==>
              r.Ok? || r == Err(Rejected)
  {
    var before := Look(bench);
    ghost var first, naps := bench.log, 0;
    Logged([], SawStatus(before));
    assert first == [] + [SawStatus(before)];
    r, naps := ResetAndWait(bench, rule, before, timeout, poll, longest);
    OneWait(naps, poll, timeout);
    FirstRecorded(SawStatus(before), bench.log, bench.log[|first|]);
  }

  /** The reset, and the wait after it. */
  method ResetAndWait(bench: Bench, rule: Recovery, before: Option<PoeStatus>, timeout: real, poll: real,
                      ghost longest: Delay)
    returns (r: Result<()>, ghost naps: nat)
    requires poll > 0.0
    modifies bench
    ensures NapsFit(naps, poll, timeout)
    ensures r == Err(Rejected) ==> bench.log == old(bench.log) + [Refused]
    ensures r != Err(Rejected) ==> old(bench.log) + [Reset(old(bench.now))] <= bench.log
    ensures SetsIn(bench.log) == SetsIn(old(bench.log)) && SleepsIn(bench.log) == SleepsIn(old(bench.log)) + naps
    ensures r.Ok? ==>
              && |bench.log| >= |old(bench.log)| + 2 && bench.log[|bench.log| - 1].SawStatus?
              && Recovered(rule, before, bench.log[|bench.log| - 1].status)
    ensures NeverRecovers(bench.port, rule, before) ==> r.Err?
    ensures ReadsWithin(bench.port, longest) && SettlesOn(bench.port, rule, before, timeout - longest) ==>
              r.Ok? || r == Err(Rejected)
  {
    var taken := bench.ResetPort();
    Logged(old(bench.log), if taken then Reset(bench.now) else Refused);
    if !taken { return Err(Rejected), 0; }
    r, naps := AwaitRecovery(bench, rule, before, timeout, poll, longest);
  }

  /** The PoE power a log leaves, `was` before it. */
  function PowerAfter(sets: seq<bool>, was: bool): bool {
    if sets == [] then was else sets[|sets| - 1]
  }

  predicate ShowsOn(e: Event) {
    e.SawStatus? && e.status.Some? && e.status.value.adminEnabled
  }

  /** HttpWriter._goahead_poe_admin: a reading, a write that may be refused, and a reading that must show it. */
  method VerifiedAdmin(bench: Bench, on: bool) returns (r: Result<()>)
    modifies bench
    ensures old(bench.log) <= bench.log && bench.now >= old(bench.now)
    ensures |bench.log| == |old(bench.log)| + (if r == Err(Rejected) then 2 else 3)
    ensures SleepsIn(bench.log) == SleepsIn(old(bench.log))
    ensures r == Err(Rejected) ==> bench.log[|bench.log| - 1].Refused? && SetsIn(bench.log) == SetsIn(old(bench.log))
    ensures r != Err(Rejected) ==>
              && bench.log[|bench.log| - 2].SetAdmin? && bench.log[|bench.log| - 2].on == on
              && bench.log[|bench.log| - 1].SawStatus?
              && SetsIn(bench.log) == SetsIn(old(bench.log)) + [on]
              && LastSet(bench.log).Some? && LastSet(bench.log).value.0 == on && LastSet(bench.log).value.1 <= bench.now
    ensures r.Ok? || r == Err(Rejected) || r == Err(VerificationFailed)
    ensures r != Err(Rejected) ==>
              (r.Ok? <==> var seen := bench.log[|bench.log| - 1].status; seen.Some? && seen.value.adminEnabled == on)
  {
    var _ := Look(bench);
    ghost var mid := bench.log;
    var taken := bench.Set(on);
    Logged(mid, if taken then SetAdmin(on, bench.now) else Refused);
    if !taken { return Err(Rejected); }
    var after := Look(bench);
    return if after.Some? && after.value.adminEnabled == on then Ok(()) else Err(VerificationFailed);
  }

  /** HttpWriter._goahead_poe_rearm: off and on as two verified writes, then the wait. The on write is made only
      after a reading showed the port disabled; without that reading, or when it is refused, the port is left off. */
  method GoaheadRearm(bench: Bench, timeout: real, poll: real, ghost longest: Delay) returns (r: Result<()>)
    requires poll > 0.0 && bench.log == []
    modifies bench
    ensures |bench.log| >= 3 && bench.log[0].SawStatus?
    ensures SetsIn(bench.log) == [] <==> bench.log[2].Refused?
    ensures SetsIn(bench.log) == [] ==> r == Err(Rejected) && |bench.log| == 3
    ensures SetsIn(bench.log) != [] ==>
              && |bench.log| >= 4 && bench.log[3].SawStatus?
              && var seen := bench.log[3].status;
                 SetsIn(bench.log)
                 == if seen.Some? && !seen.value.adminEnabled && r != Err(Rejected) then [false, true] else [false]
    ensures NapBudget(SleepsIn(bench.log), poll, timeout, 0.0)
    ensures r.Ok? ==>
              && SetsIn(bench.log) == [false, true]
              && bench.log[|bench.log| - 1].SawStatus?
              && CycleComplete(bench.log[0].status, bench.log[|bench.log| - 1].status)
    ensures NeverRecovers(bench.port, Cycle, bench.port.status([], old(bench.now))) ==> r.Err?
    // A port that settles in time is given up on only by the reading that follows the on write.
    ensures SetsIn(bench.log) == [false, true] && ReadsWithin(bench.port, longest)
            && SettlesOn(bench.port, Cycle, bench.port.status([], old(bench.now)), timeout - longest) ==>
              r.Ok? || (r == Err(VerificationFailed) && |bench.log| == 7 && !ShowsOn(bench.log[6]))
  {
    var before := Look(bench);
    ghost var s0 := bench.log;
    OneWait(0, poll, timeout);
    r := VerifiedAdmin(bench, false);
    ghost var s1 := bench.log;
    assert s1[0] == s0[0];
    if r.Err? { return; }
    r := VerifiedAdmin(bench, true);
    ghost var s2 := bench.log;
    assert s2[0] == s1[0] && s2[2] == s1[2] && s2[3] == s1[3];
    if r.Err? { return; }
    ghost var naps;
    r, naps := AwaitRecovery(bench, Cycle, before, timeout, poll, longest);
    OneWait(naps, poll, timeout);
    assert SleepsIn(bench.log) == naps;
    assert bench.log[0] == s2[0] && bench.log[2] == s2[2] && bench.log[3] == s2[3];
  }

  lemma TotalNaps(a: nat, b: nat, poll: real, offTimeout: real, onTimeout: real)
    requires poll > 0.0 && NapsFit(a, poll, offTimeout) && NapsFit(b, poll, onTimeout)
    ensures NapBudget(a + b, poll, offTimeout, onTimeout)
  {
    NapsBound(a, poll, offTimeout);
    NapsBound(b, poll, onTimeout);
    AddNaps(a, b, poll);
  }

  lemma OneWait(naps: nat, poll: real, timeout: real)
    requires poll > 0.0 && NapsFit(naps, poll, timeout)
    ensures NapBudget(naps, poll, timeout, 0.0)
  {
    NapsBound(naps, poll, timeout);
  }

  /** `n` sleeps fit the two deadlines, give or take one sleep each. */
  ghost predicate NapBudget(n: nat, poll: real, offTimeout: real, onTimeout: real) {
    n as real * poll < Positive(offTimeout) + Positive(onTimeout) + 2.0 * poll
  }

  function Positive(x: real): real { if x > 0.0 then x else 0.0 }

  lemma NapsBound(n: nat, poll: real, timeout: real)
    requires poll > 0.0 && NapsFit(n, poll, timeout)
    ensures n as real * poll < Positive(timeout) + poll
  {
    if n > 0 {
      AddNaps(n - 1, 1, poll);
    }
  }

  lemma AddNaps(a: nat, b: nat, poll: real)
    ensures (a + b) as real * poll == a as real * poll + b as real * poll
  {
  }
}
