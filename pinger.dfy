/** The driver of the ping gate (wait-until-pingable.py: `one_ping`, `ping`,
    `handle_signal` and the main loop): one probe per iteration until a reply with a
    positive delay, a stop signal or the deadline, then the exit status.  Sockets,
    DNS, the clock and signal delivery are inputs: each iteration records what the
    outside world did during it. */
module Pinger {
  import opened Wrappers
  import opened InetChecksum
  import opened IcmpEcho

  const ERROR_DNS_LOOKUP_FAILED := -2
  const ERROR_SENDTO_FAILED := -3
  /** `ping.ping_id` wraps to 1 when it reaches this value. */
  const SEQ_LIMIT := 100

  /** What `one_ping` returns: None, or a number that is a delay in clock ticks or a
      negative error code. */
  datatype Response = NoDelay | Number(value: int)

  /** `one_ping` either returns or lets an exception escape (a datagram too short for
      `struct.unpack`), which ends the program with a traceback. */
  datatype PingOutcome = Returned(response: Response) | Raised

  /** One probe's surroundings: whether `gethostbyname` resolved the target, whether
      `sendto` succeeded, the clock at sending, and what the socket then delivered. */
  datatype Probe = Probe(resolved: bool, sendOk: bool, sendTime: nat, arrivals: seq<Arrival>)

  /** The command-line settings and process facts one run depends on. */
  datatype Settings = Settings(order: ByteOrder, pid: nat, pingSize: nat, pingTimeout: nat)

  /** `os.getpid() & 0xFFFF` */
  function MyId(pid: nat): (id: nat)
    ensures id < 0x10000
  {
    pid % 0x10000
  }

  /** The value `one_ping` returns for a probe. */
  function ProbeOutcome(s: Settings, probe: Probe): PingOutcome
  {
    if !probe.resolved then Returned(Number(ERROR_DNS_LOOKUP_FAILED))
    else if !probe.sendOk then Returned(Number(ERROR_SENDTO_FAILED))
    else
      match Receive(MyId(s.pid), s.pingTimeout, probe.sendTime, probe.arrivals)
      case Unpackable => Raised
      case NoReply => Returned(NoDelay)
      case Received(r) =>
        if r.timeReceived != 0 then Returned(Number(r.timeReceived - probe.sendTime))
        else Returned(NoDelay)
  }

  /** `one_ping(destIP, timeout, mySeqNumber, numDataBytes)`: resolve, build and send the
      Echo Request, wait for the reply and turn it into a delay.  `sent` is the packet
      handed to `sendto` (empty when the name did not resolve). */
  method OnePing(s: Settings, mySeqNumber: nat, probe: Probe) returns (outcome: PingOutcome, sent: seq<byte>)
    requires mySeqNumber < 0x10000
    ensures outcome == ProbeOutcome(s, probe)
    ensures sent == if probe.resolved then EchoRequest(s.order, MyId(s.pid), mySeqNumber, s.pingSize) else []
  {
    var myID := MyId(s.pid);
    sent := [];
    if !probe.resolved {
      return Returned(Number(ERROR_DNS_LOOKUP_FAILED)), sent;
    }
    sent := BuildEchoRequest(s.order, myID, mySeqNumber, s.pingSize);
    if !probe.sendOk {
      return Returned(Number(ERROR_SENDTO_FAILED)), sent;
    }
    var sentTime := probe.sendTime;
    var r := ReceiveOnePing(myID, s.pingTimeout, sentTime, probe.arrivals);
    match r {
      case Unpackable =>
        outcome := Raised;
      case NoReply =>
        outcome := Returned(NoDelay);
      case Received(reply) =>
        if reply.timeReceived != 0 {
          outcome := Returned(Number(reply.timeReceived - sentTime));
        } else {
          outcome := Returned(NoDelay);
        }
    }
  }

  /** Every number `one_ping` returns is one of the two error codes, when resolving or
      sending failed, or a delay between 0 and the reply timeout. */
  lemma ProbeNumbers(s: Settings, probe: Probe)
    ensures !probe.resolved ==> ProbeOutcome(s, probe) == Returned(Number(ERROR_DNS_LOOKUP_FAILED))
    ensures probe.resolved && !probe.sendOk ==> ProbeOutcome(s, probe) == Returned(Number(ERROR_SENDTO_FAILED))
    ensures var o := ProbeOutcome(s, probe);
            probe.resolved && probe.sendOk && o.Returned? && o.response.Number? ==>
              0 <= o.response.value <= s.pingTimeout
  {
    ReplyWithinTimeout(MyId(s.pid), s.pingTimeout, probe.sendTime, probe.arrivals);
  }

  /** The next value of `ping.ping_id`. */
  function NextSeq(pingId: int): int {
    if pingId + 1 >= SEQ_LIMIT then 1 else pingId + 1
  }

  /** `ping.ping_id` after k calls of `ping()`. */
  function SeqAfter(k: nat): int {
    if k == 0 then 0 else NextSeq(SeqAfter(k - 1))
  }

  /** The k-th sequence number counts 1, 2, …, 99 and starts over at 1: it is never 0
      and never above 99. */
  lemma {:induction false} SeqCycle(k: nat)
    requires k >= 1
    ensures SeqAfter(k) == (k - 1) % 99 + 1
    ensures 1 <= SeqAfter(k) <= 99
  {
    if k > 1 {
      SeqCycle(k - 1);
    }
  }

  /** The function attribute `ping.ping_id`, kept across calls of `ping()`. */
  class PingCounter {
    var pingId: int

    constructor ()
      ensures pingId == 0
    {
      pingId := 0;
    }

    /** `ping()`: the next sequence number, then one probe with it. */
    method Ping(s: Settings, probe: Probe) returns (outcome: PingOutcome, seqNo: int)
      requires 0 <= pingId < SEQ_LIMIT
      modifies this
      ensures seqNo == NextSeq(old(pingId)) && pingId == seqNo && 1 <= seqNo < SEQ_LIMIT
      ensures outcome == ProbeOutcome(s, probe)
    {
      pingId := pingId + 1;
      if pingId >= SEQ_LIMIT {
        pingId := 1;
      }
      seqNo := pingId;
      var sent;
      outcome, sent := OnePing(s, seqNo, probe);
    }
  }

  /** The signals `handle_signal` turns into a stop: SIGHUP, SIGINT, SIGQUIT, SIGTERM. */
  predicate IsStopSignal(signum: int) {
    signum in {1, 2, 3, 15}
  }

  /** The stop flag after `handle_signal` has run for each signal in turn. */
  function HandleSignals(stop: bool, signals: seq<int>): bool
    decreases |signals|
  {
    if signals == [] then stop else HandleSignals(stop || IsStopSignal(signals[0]), signals[1..])
  }

  /** Some signal of the series is a stop signal. */
  predicate Stops(signals: seq<int>) {
    exists i :: 0 <= i < |signals| && IsStopSignal(signals[i])
  }

  /** A series of signals stops the run exactly when one of them is a stop signal;
      every other signal is ignored. */
  lemma {:induction false} HandleSignalsStops(stop: bool, signals: seq<int>)
    ensures HandleSignals(stop, signals) <==> stop || exists i :: 0 <= i < |signals| && IsStopSignal(signals[i])
    decreases |signals|
  {
    if signals != [] {
      HandleSignalsStops(stop || IsStopSignal(signals[0]), signals[1..]);
      assert forall i :: 0 <= i < |signals| - 1 ==> signals[1..][i] == signals[i + 1];
    }
  }

  /** What happens during one turn of the main loop: the probe, the signals delivered
      while it ran and while sleeping `ping_delay`, and the clock after the sleep. */
  datatype Iteration = Iteration(probe: Probe, pingSignals: seq<int>, sleepSignals: seq<int>,
                                 clockAfterSleep: int)

  /** How the process ends: `exit(code)`, an uncaught exception (a traceback), or still
      running when the recorded iterations run out. */
  datatype ExitStatus = Exited(code: int) | Crashed | Unfinished

  /** The code after the loop: 0 unless `stop` is set; then the negated error code of
      the last response, or 1.  `response` is unbound (NameError) when a stop signal
      came before the first probe. */
  function ExitFor(stop: bool, response: Option<Response>): ExitStatus
  {
    if !stop then Exited(0)
    else if response.None? then Crashed
    else if response.value.Number? && response.value.value < 0 then Exited(-response.value.value)
    else Exited(1)
  }

  /** The main loop from a given state: `stop` and the last `response`.  (Where the
      sequence counter stands does not change how the run ends.) */
  function Loop(s: Settings, endTime: int, stop: bool, response: Option<Response>,
                iters: seq<Iteration>): ExitStatus
    decreases |iters|
  {
    if stop then ExitFor(true, response)
    else if iters == [] then Unfinished
    else
      var it := iters[0];
      var outcome := ProbeOutcome(s, it.probe);
      var stopAfterPing := HandleSignals(stop, it.pingSignals);
      if outcome.Raised? then Crashed
      else if outcome.response.Number? && outcome.response.value > 0 then
        ExitFor(stopAfterPing, Some(outcome.response))
      else
        var stopAfterSleep := HandleSignals(stopAfterPing, it.sleepSignals) || it.clockAfterSleep >= endTime;
        Loop(s, endTime, stopAfterSleep, Some(outcome.response), iters[1..])
  }

  /** A whole run: signals that came before the loop, then the iterations. */
  function Run(s: Settings, endTime: int, startSignals: seq<int>, iters: seq<Iteration>): ExitStatus
  {
    Loop(s, endTime, HandleSignals(false, startSignals), None, iters)
  }

  /** The main program from the installation of the signal handlers on: the loop over
      `ping()` with its break, sleep and deadline check, then the exit code.  Also
      returns the sequence numbers the probes used, in order. */
  method WaitUntilPingable(s: Settings, endTime: int, startSignals: seq<int>, iters: seq<Iteration>)
    returns (status: ExitStatus, seqNumbers: seq<int>)
    ensures status == Run(s, endTime, startSignals, iters)
    ensures |seqNumbers| <= |iters| && forall i :: 0 <= i < |seqNumbers| ==> seqNumbers[i] == SeqAfter(i + 1)
  {
    var stop := HandleSignals(false, startSignals);
    var response: Option<Response> := None;
    var counter := new PingCounter();
    seqNumbers := [];
    var i := 0;
    while !stop
      invariant 0 <= i <= |iters| && |seqNumbers| == i && counter.pingId == SeqAfter(i)
      invariant 0 <= counter.pingId < SEQ_LIMIT
      invariant forall j :: 0 <= j < i ==> seqNumbers[j] == SeqAfter(j + 1)
      invariant Loop(s, endTime, stop, response, iters[i..]) == Run(s, endTime, startSignals, iters)
      decreases |iters| - i, !stop
    {
      if i == |iters| {
        return Unfinished, seqNumbers;
      }
      var it := iters[i];
      var outcome, seqNo := counter.Ping(s, it.probe);
      seqNumbers := seqNumbers + [seqNo];
      stop := HandleSignals(stop, it.pingSignals);
      if outcome.Raised? {
        return Crashed, seqNumbers;
      }
      response := Some(outcome.response);
      if outcome.response.Number? && outcome.response.value > 0 {
        break;
      }
      stop := HandleSignals(stop, it.sleepSignals);
      if it.clockAfterSleep >= endTime {
        stop := true;
      }
      assert iters[i..][1..] == iters[i + 1..];
      i := i + 1;
    }
    status := ExitFor(stop, response);
  }

  /** A response that `one_ping` can return: a delay or one of the error codes. */
  predicate PossibleResponse(r: Option<Response>) {
    r.Some? && r.value.Number? ==>
      r.value.value >= 0 || r.value.value == ERROR_DNS_LOOKUP_FAILED || r.value.value == ERROR_SENDTO_FAILED
  }

  /** The process exits with 0 (a reply came), 1 (stopped without an error code), 2
      (the name did not resolve) or 3 (`sendto` failed), and with nothing else. */
  lemma {:induction false} ExitCodes(s: Settings, endTime: int, stop: bool, response: Option<Response>,
                                     iters: seq<Iteration>)
    requires PossibleResponse(response)
    ensures Loop(s, endTime, stop, response, iters).Exited? ==> Loop(s, endTime, stop, response, iters).code in {0, 1, 2, 3}
    decreases |iters|
  {
    if !stop && iters != [] {
      ProbeNumbers(s, iters[0].probe);
      var outcome := ProbeOutcome(s, iters[0].probe);
      if outcome.Returned? {
        ExitCodes(s, endTime, HandleSignals(HandleSignals(false, iters[0].pingSignals), iters[0].sleepSignals)
                  || iters[0].clockAfterSleep >= endTime, Some(outcome.response), iters[1..]);
      }
    }
  }

  /** One iteration leads to the next: its probe returned something other than a
      positive delay, no stop signal came, and the deadline was not reached. */
  predicate Continues(s: Settings, endTime: int, it: Iteration) {
    var o := ProbeOutcome(s, it.probe);
    o.Returned? && !(o.response.Number? && o.response.value > 0)
    && !Stops(it.pingSignals) && !Stops(it.sleepSignals) && it.clockAfterSleep < endTime
  }

  /** Failures of every kind are retried: after iterations that all continue, the run
      goes on exactly as if it started at the next one. */
  lemma {:induction false} FailuresRetried(s: Settings, endTime: int, response: Option<Response>,
                                           iters: seq<Iteration>, k: nat)
    requires k <= |iters|
    requires forall j :: 0 <= j < k ==> Continues(s, endTime, iters[j])
    ensures k > 0 ==> Continues(s, endTime, iters[k - 1]) && Loop(s, endTime, false, response, iters)
                      == Loop(s, endTime, false, Some(ProbeOutcome(s, iters[k - 1].probe).response), iters[k..])
    decreases k
  {
    if k > 0 {
      var it := iters[0];
      HandleSignalsStops(false, it.pingSignals);
      HandleSignalsStops(false, it.sleepSignals);
      assert Continues(s, endTime, iters[0]);
      var r := Some(ProbeOutcome(s, it.probe).response);
      assert Loop(s, endTime, false, response, iters) == Loop(s, endTime, false, r, iters[1..]);
      if k > 1 {
        FailuresRetried(s, endTime, r, iters[1..], k - 1);
        assert iters[1..][k - 1 - 1] == iters[k - 1];
        assert iters[1..][k - 1..] == iters[k..];
      }
    }
  }

  /** When a probe gets no reply and then a stop signal arrives (during the probe or the
      sleep) or the deadline passes, the exit code is the one that probe earned: 2 for
      a failed lookup, 3 for a failed `sendto`, 1 when it simply got no reply. */
  lemma LastFailureDecides(s: Settings, endTime: int, response: Option<Response>, iters: seq<Iteration>, k: nat)
    requires k < |iters|
    requires forall j :: 0 <= j < k ==> Continues(s, endTime, iters[j])
    requires ProbeOutcome(s, iters[k].probe).Returned?
    requires !(ProbeOutcome(s, iters[k].probe).response.Number? && ProbeOutcome(s, iters[k].probe).response.value > 0)
    requires Stops(iters[k].pingSignals) || Stops(iters[k].sleepSignals) || iters[k].clockAfterSleep >= endTime
    ensures Loop(s, endTime, false, response, iters)
            == (if !iters[k].probe.resolved then Exited(2)
                else if !iters[k].probe.sendOk then Exited(3)
                else Exited(1))
  {
    FailuresRetried(s, endTime, response, iters, k);
    var rest := iters[k..];
    assert rest[0] == iters[k];
    var r := if k == 0 then response else Some(ProbeOutcome(s, iters[k - 1].probe).response);
    assert Loop(s, endTime, false, response, iters) == Loop(s, endTime, false, r, rest);
    HandleSignalsStops(false, iters[k].pingSignals);
    HandleSignalsStops(HandleSignals(false, iters[k].pingSignals), iters[k].sleepSignals);
    var o := ProbeOutcome(s, iters[k].probe);
    assert Loop(s, endTime, false, r, rest) == Loop(s, endTime, true, Some(o.response), rest[1..]);
    assert Loop(s, endTime, true, Some(o.response), rest[1..]) == ExitFor(true, Some(o.response));
    if !iters[k].probe.resolved {
      assert o.response == Number(ERROR_DNS_LOOKUP_FAILED);
    } else if !iters[k].probe.sendOk {
      assert o.response == Number(ERROR_SENDTO_FAILED);
    } else {
      ProbeNumbers(s, iters[k].probe);
      assert o.response.Number? ==> o.response.value == 0;
    }
  }

  /** A probe that returns a positive delay ends the run: with exit code 0, or 1 when a
      stop signal came while it ran. */
  lemma ReplyDecides(s: Settings, endTime: int, response: Option<Response>, iters: seq<Iteration>, k: nat)
    requires k < |iters|
    requires forall j :: 0 <= j < k ==> Continues(s, endTime, iters[j])
    requires ProbeOutcome(s, iters[k].probe).Returned?
    requires ProbeOutcome(s, iters[k].probe).response.Number? && ProbeOutcome(s, iters[k].probe).response.value > 0
    ensures Loop(s, endTime, false, response, iters) == if Stops(iters[k].pingSignals) then Exited(1) else Exited(0)
  {
    FailuresRetried(s, endTime, response, iters, k);
    var rest := iters[k..];
    assert rest[0] == iters[k];
    var r := if k == 0 then response else Some(ProbeOutcome(s, iters[k - 1].probe).response);
    assert Loop(s, endTime, false, response, iters) == Loop(s, endTime, false, r, rest);
    var o := ProbeOutcome(s, iters[k].probe);
    assert Loop(s, endTime, false, r, rest) == ExitFor(HandleSignals(false, iters[k].pingSignals), Some(o.response));
    HandleSignalsStops(false, iters[k].pingSignals);
  }

  /** The probe returned a positive delay. */
  predicate Replied(s: Settings, probe: Probe) {
    var o := ProbeOutcome(s, probe);
    o.Returned? && o.response.Number? && o.response.value > 0
  }

  /** Exit code 0 happens only after a probe got a reply with a positive delay. */
  lemma {:induction false} ExitZeroMeansReply(s: Settings, endTime: int, stop: bool, response: Option<Response>,
                                              iters: seq<Iteration>)
    requires Loop(s, endTime, stop, response, iters) == Exited(0)
    ensures exists k :: 0 <= k < |iters| && Replied(s, iters[k].probe)
    decreases |iters|
  {
    var it := iters[0];
    if !Replied(s, it.probe) {
      var outcome := ProbeOutcome(s, it.probe);
      assert !stop && outcome.Returned?;
      var stop' := HandleSignals(HandleSignals(stop, it.pingSignals), it.sleepSignals) || it.clockAfterSleep >= endTime;
      ExitZeroMeansReply(s, endTime, stop', Some(outcome.response), iters[1..]);
      var k :| 0 <= k < |iters[1..]| && Replied(s, iters[1..][k].probe);
      assert iters[k + 1] == iters[1..][k];
    }
  }

  /** An iteration after which the loop does not go round again. */
  predicate EndsRun(endTime: int, it: Iteration) {
    Stops(it.pingSignals) || Stops(it.sleepSignals) || it.clockAfterSleep >= endTime
  }

  /** Once a stop signal arrives or the deadline passes, no later iteration has any
      effect on how the process ends. */
  lemma {:induction false} NothingAfterEnd(s: Settings, endTime: int, stop: bool, response: Option<Response>,
                                           iters: seq<Iteration>, k: nat)
    requires k < |iters| && EndsRun(endTime, iters[k])
    ensures Loop(s, endTime, stop, response, iters) == Loop(s, endTime, stop, response, iters[..k + 1])
    decreases k
  {
    var it := iters[0];
    var prefix := iters[..k + 1];
    assert prefix[0] == it;
    if !stop {
      var outcome := ProbeOutcome(s, it.probe);
      var stop' := HandleSignals(HandleSignals(stop, it.pingSignals), it.sleepSignals) || it.clockAfterSleep >= endTime;
      if outcome.Returned? && !(outcome.response.Number? && outcome.response.value > 0) {
        if k == 0 {
          HandleSignalsStops(false, it.pingSignals);
          HandleSignalsStops(HandleSignals(false, it.pingSignals), it.sleepSignals);
          assert stop';
        } else {
          NothingAfterEnd(s, endTime, stop', Some(outcome.response), iters[1..], k - 1);
          assert iters[1..][k - 1] == iters[k];
          assert iters[1..][..k] == prefix[1..];
        }
      }
    }
  }
}
