/**
 * One modem: a FIFO of received messages handed to the SMS processor, and a FIFO of outbound
 * SMS jobs delivered through an inner network-coverage loop with the shared retry rule.
 * The modem library (connect, waitForNetworkCoverage, sendSms) is a success/failure oracle.
 */
module Modem {
  import opened Wrappers
  import opened Messages
  import opened Retry

  const DefaultNetworkRetries := 3
  const UnnamedModem := "UnnamedModem"

  /** The `pin` entry: present as JSON null, or present with a PIN code. */
  datatype Pin = NoPin | Pin(code: string)

  /** One entry of the `modems` section; a field is None when its key is absent. */
  datatype ModemConfig = ModemConfig(
    name: Option<string>,
    port: Option<string>,
    baudrate: Option<int>,
    pin: Option<Pin>,
    networkRetries: Option<int>)

  /** What one coverage check and send produced: no coverage, a sent SMS, or an exception. */
  datatype NetOutcome = NoCoverage | Delivered | Raised

  /** How `start` ended: connected with threads started, a failed connect, or the KeyError of a missing `baudrate`. */
  datatype StartResult = Started | ConnectFailed | MissingKey

  /** Every attempt before the `k`-th found no coverage. */
  ghost predicate NoCoverageBefore(probe: nat -> NetOutcome, k: nat) {
    forall j: nat :: j < k ==> probe(j) == NoCoverage
  }

  /** The coverage loop sends the SMS: it finds coverage and sends within its bound of attempts. */
  ghost predicate Delivers(probe: nat -> NetOutcome, networkRetries: int) {
    exists k: nat :: k < networkRetries && probe(k) == Delivered && NoCoverageBefore(probe, k)
  }

  class ModemHandler {
    const name: string
    const port: string
    const config: ModemConfig
    const maxRetries: int
    const initialDelay: int
    const networkRetries: int
    var incoming: seq<Sms>
    var outgoing: seq<OutboundJob>
    var threadsStarted: bool

    /** Every queued job has used no more retries than allowed. */
    ghost predicate Valid()
      reads this
    {
      forall i :: 0 <= i < |outgoing| ==> WithinBudget(outgoing[i].retryCount, maxRetries)
    }

    constructor (config: ModemConfig, retry: RetrySettings)
      requires config.port.Some?
      ensures this.config == config
      ensures name == config.name.GetOr(UnnamedModem) && port == config.port.value
      ensures maxRetries == retry.maxRetries.GetOr(DefaultMaxRetries)
      ensures initialDelay == retry.initialDelay.GetOr(DefaultInitialDelay)
      ensures networkRetries == config.networkRetries.GetOr(DefaultNetworkRetries)
      ensures incoming == [] && outgoing == [] && !threadsStarted
      ensures Valid()
    {
      this.config := config;
      name := config.name.GetOr(UnnamedModem);
      port := config.port.value;
      maxRetries := retry.maxRetries.GetOr(DefaultMaxRetries);
      initialDelay := retry.initialDelay.GetOr(DefaultInitialDelay);
      networkRetries := config.networkRetries.GetOr(DefaultNetworkRetries);
      incoming, outgoing := [], [];
      threadsStarted := false;
    }

    /**
     * Opens the modem with the configured port, baud rate and PIN and starts the worker
     * threads on success. A missing `baudrate` key raises KeyError out of `start`; a missing
     * `pin` key raises inside the connect handler, which reports a failed connect.
     */
    method Start(linkUp: bool) returns (r: StartResult)
      modifies this
      ensures r == if config.baudrate.None? then MissingKey
                   else if config.pin.Some? && linkUp then Started else ConnectFailed
      ensures threadsStarted == (old(threadsStarted) || r == Started)
      ensures incoming == old(incoming) && outgoing == old(outgoing)
    {
      if config.baudrate.None? {
        return MissingKey;
      }
      if config.pin.None? || !linkUp {
        return ConnectFailed;
      }
      threadsStarted := true;
      r := Started;
    }

    /** The modem library's receive callback: the message joins the incoming FIFO. */
    method HandleSms(sms: Sms)
      modifies this
      ensures incoming == old(incoming) + [sms]
      ensures outgoing == old(outgoing) && threadsStarted == old(threadsStarted)
    {
      incoming := incoming + [sms];
    }

    /**
     * One iteration of the incoming worker: the oldest received message, with this modem's
     * name, as the worker passes both to the processor's callback. A modem whose start did not
     * connect has no worker, so nothing is taken.
     */
    method ProcessIncoming() returns (next: Option<(string, Sms)>)
      modifies this
      ensures !threadsStarted || old(incoming) == [] ==> next.None? && incoming == old(incoming)
      ensures threadsStarted && old(incoming) != [] ==>
        next == Some((name, old(incoming)[0])) && incoming == old(incoming)[1..]
      ensures outgoing == old(outgoing) && threadsStarted == old(threadsStarted)
    {
      if !threadsStarted || incoming == [] {
        return None;
      }
      next := Some((name, incoming[0]));
      incoming := incoming[1..];
    }

    /** Queues a new outbound SMS with retry count 0 at the tail. */
    method SendSms(destination: string, text: string)
      requires Valid()
      modifies this
      ensures Valid()
      ensures outgoing == old(outgoing) + [OutboundJob(destination, text, 0)]
      ensures incoming == old(incoming) && threadsStarted == old(threadsStarted)
    {
      outgoing := outgoing + [OutboundJob(destination, text, 0)];
    }

    /**
     * The inner loop of the outgoing worker: up to `network_retries` coverage checks; it stops
     * at the first sent SMS and at the first exception. `checks` counts the checks made.
     */
    method SendWithCoverage(probe: nat -> NetOutcome) returns (success: bool, checks: nat)
      ensures checks <= if networkRetries > 0 then networkRetries else 0
      ensures NoCoverageBefore(probe, if checks > 0 then checks - 1 else 0)
      ensures checks < networkRetries ==> checks > 0 && probe(checks - 1) != NoCoverage
      ensures success <==> checks > 0 && probe(checks - 1) == Delivered
      ensures success <==> Delivers(probe, networkRetries)
    {
      success, checks := false, 0;
      var attempt: nat := 0;
      while attempt < networkRetries
        invariant checks == attempt
        invariant attempt == 0 || attempt <= networkRetries
        invariant NoCoverageBefore(probe, attempt)
        invariant !success
      {
        checks := checks + 1;
        var outcome := probe(attempt);
        if outcome == Delivered {
          success := true;
          break;
        } else if outcome == Raised {
          break;
        }
        attempt := attempt + 1;
      }
      if success {
        assert probe(checks - 1) == Delivered && NoCoverageBefore(probe, checks - 1);
      } else {
        forall k: nat | k < networkRetries && probe(k) == Delivered
          ensures !NoCoverageBefore(probe, k)
        {
          assert checks > 0 && probe(checks - 1) == Raised && checks - 1 < k;
        }
      }
    }

    /**
     * `retry_message`: while retries remain the job goes back to the tail with its count
     * increased, and the delay to sleep is returned; otherwise it is dropped.
     */
    method RetryMessage(job: OutboundJob) returns (delay: Option<int>)
      requires Valid()
      modifies this
      ensures Valid()
      ensures delay == RetryDelay(maxRetries, initialDelay, job.retryCount)
      ensures outgoing == if delay.Some? then old(outgoing) + [job.(retryCount := job.retryCount + 1)]
                          else old(outgoing)
      ensures incoming == old(incoming) && threadsStarted == old(threadsStarted)
    {
      delay := RetryDelay(maxRetries, initialDelay, job.retryCount);
      if delay.Some? {
        outgoing := outgoing + [job.(retryCount := job.retryCount + 1)];
      }
    }

    /**
     * One iteration of the outgoing worker on the head of the queue. A modem whose start did
     * not connect has no worker: its jobs stay queued and are never sent.
     */
    method ProcessOutgoing(probe: nat -> NetOutcome) returns (step: Step<OutboundJob>)
      requires Valid()
      modifies this
      ensures Valid()
      ensures !threadsStarted || old(outgoing) == [] ==> step == Idle && outgoing == old(outgoing)
      ensures threadsStarted && old(outgoing) != [] ==>
        var job, rest := old(outgoing)[0], old(outgoing)[1..];
        if Delivers(probe, networkRetries) then step == Sent(job) && outgoing == rest
        else match RetryDelay(maxRetries, initialDelay, job.retryCount)
             case Some(d) => step == Retried(job, d) && outgoing == rest + [job.(retryCount := job.retryCount + 1)]
             case None => step == Dropped(job) && outgoing == rest
      ensures incoming == old(incoming) && threadsStarted == old(threadsStarted)
    {
      if !threadsStarted || outgoing == [] {
        return Idle;
      }
      var job := outgoing[0];
      outgoing := outgoing[1..];
      var success, _ := SendWithCoverage(probe);
      if success {
        step := Sent(job);
      } else {
        var delay := RetryMessage(job);
        step := if delay.Some? then Retried(job, delay.value) else Dropped(job);
      }
    }
  }
}
