/**
 * The SMS processor: it reassembles multipart messages in its fragment table, saves every
 * complete message and runs the rules over it. Handlers are known by name, and everything the
 * rules hand to a handler is appended to one sequence of jobs.
 */
module Processor {
  import opened Wrappers
  import opened Messages
  import opened Multipart
  import opened Rules

  class SmsProcessor {
    const rules: seq<Rule>
    var modemHandlers: set<string>
    var emailHandlers: set<string>
    var apiHandlers: set<string>
    /** The `multipart_sms` table. */
    var multipart: Table
    /** The complete messages handed to the database, with the receiving modem. */
    var saved: seq<(string, Sms)>
    /** The jobs handed to the handlers, oldest first. */
    var outbox: seq<Job>

    ghost predicate Valid()
      reads this
    {
      TableValid(multipart)
    }

    function Registered(): Registry
      reads this`modemHandlers, this`emailHandlers, this`apiHandlers
    {
      Registry(modemHandlers, emailHandlers, apiHandlers)
    }

    /**
     * The `multipart_sms` table is created only if it does not exist, so the processor starts
     * with whatever fragments the database file already holds.
     */
    constructor(rules: seq<Rule>, stored: Table)
      requires TableValid(stored)
      ensures this.rules == rules
      ensures modemHandlers == {} && emailHandlers == {} && apiHandlers == {}
      ensures multipart == stored && saved == [] && outbox == []
      ensures Valid()
    {
      this.rules := rules;
      modemHandlers, emailHandlers, apiHandlers := {}, {}, {};
      multipart, saved, outbox := stored, [], [];
    }

    /** `register_modem`: the handler is known under its own name; the port is not used. */
    method RegisterModem(port: string, handlerName: string)
      modifies this`modemHandlers
      ensures modemHandlers == old(modemHandlers) + {handlerName}
      ensures emailHandlers == old(emailHandlers) && apiHandlers == old(apiHandlers)
      ensures multipart == old(multipart) && saved == old(saved) && outbox == old(outbox)
    {
      modemHandlers := modemHandlers + {handlerName};
    }

    method RegisterEmail(name: string)
      modifies this`emailHandlers
      ensures emailHandlers == old(emailHandlers) + {name}
      ensures modemHandlers == old(modemHandlers) && apiHandlers == old(apiHandlers)
      ensures multipart == old(multipart) && saved == old(saved) && outbox == old(outbox)
    {
      emailHandlers := emailHandlers + {name};
    }

    method RegisterApi(name: string)
      modifies this`apiHandlers
      ensures apiHandlers == old(apiHandlers) + {name}
      ensures modemHandlers == old(modemHandlers) && emailHandlers == old(emailHandlers)
      ensures multipart == old(multipart) && saved == old(saved) && outbox == old(outbox)
    {
      apiHandlers := apiHandlers + {name};
    }

    /** `cleanup_old_multipart`, with `now` the database clock in seconds. */
    method CleanupOldMultipart(now: int)
      requires Valid()
      modifies this
      ensures Valid()
      ensures multipart == RemoveStale(old(multipart), now)
      ensures modemHandlers == old(modemHandlers) && emailHandlers == old(emailHandlers) && apiHandlers == old(apiHandlers)
      ensures saved == old(saved) && outbox == old(outbox)
    {
      multipart := RemoveStale(multipart, now);
    }

    /**
     * `handle_multipart`: the first Concatenation element of the header decides. A repeated part
     * is refused; the part that completes its group yields the joined message and deletes the
     * group; any other part is stored and a stale row triggers the cleanup.
     */
    method HandleMultipart(modemName: string, sms: Sms, now: int) returns (complete: Option<Sms>)
      requires Valid()
      modifies this
      ensures Valid()
      ensures Ingested(multipart, complete) == Ingest(old(multipart), modemName, sms, now)
      ensures modemHandlers == old(modemHandlers) && emailHandlers == old(emailHandlers) && apiHandlers == old(apiHandlers)
      ensures saved == old(saved) && outbox == old(outbox)
    {
      ghost var t := multipart;
      var i := 0;
      while i < |sms.udh| && !sms.udh[i].Concatenation?
        invariant 0 <= i <= |sms.udh|
        invariant forall k :: 0 <= k < i ==> !sms.udh[k].Concatenation?
      {
        i := i + 1;
      }
      IngestKeepsTableValid(t, modemName, sms, now);
      if i == |sms.udh| {
        SinglePartPassesThrough(t, modemName, sms, now);
        complete := Some(sms);
      } else {
        IngestAtFirst(t, modemName, sms, now, i);
        complete := StoreFragment(modemName, sms, sms.udh[i], now);
      }
    }

    /** One Concatenation element: insert the row, count the group, join it or clean up. */
    method StoreFragment(modemName: string, sms: Sms, c: UdhElement, now: int) returns (complete: Option<Sms>)
      requires c.Concatenation?
      requires Valid()
      modifies this
      ensures Ingested(multipart, complete) == IngestFragment(old(multipart), modemName, sms, c, now)
      ensures modemHandlers == old(modemHandlers) && emailHandlers == old(emailHandlers) && apiHandlers == old(apiHandlers)
      ensures saved == old(saved) && outbox == old(outbox)
    {
      var g := GroupKey(sms.number, c.reference, modemName);
      var parts := Stored(multipart, g);
      if c.number in parts {
        return None;
      }
      var parts' := parts[c.number := Fragment(c.parts, sms.text, sms.time.seconds)];
      if |parts'| == c.parts {
        var text := AssembleParts(parts');
        multipart := multipart - {g};
        return Some(sms.(text := text));
      }
      multipart := multipart[g := parts'];
      assert TableValid(multipart);
      if HasStale(multipart, now) {
        CleanupOldMultipart(now);
      } else {
        RemoveStaleWithoutStaleRows(multipart, now);
      }
      return None;
    }

    /** The reply loop: one SMS to `number` from each listed queue that is a modem. */
    method Reply(queues: seq<string>, number: string, message: string)
      modifies this`outbox
      ensures outbox == old(outbox) + ReplyJobs(Registered(), queues, number, message)
    {
      var k := 0;
      while k < |queues|
        invariant 0 <= k <= |queues|
        invariant outbox == old(outbox) + ReplyJobs(Registered(), queues[..k], number, message)
      {
        if queues[k] in modemHandlers {
          outbox := outbox + [ToModem(queues[k], number, message)];
        }
        assert queues[..k + 1][..k] == queues[..k];
        k := k + 1;
      }
      assert queues[..k] == queues;
    }

    /** The forward loop: the jobs for each listed queue in turn. */
    method Forward(queues: seq<string>, destinations: seq<string>, sms: Sms, message: string)
      modifies this`outbox
      ensures outbox == old(outbox) + ForwardJobs(Registered(), queues, destinations, sms, message)
    {
      var k := 0;
      while k < |queues|
        invariant 0 <= k <= |queues|
        invariant outbox == old(outbox) + ForwardJobs(Registered(), queues[..k], destinations, sms, message)
      {
        ForwardToQueue(queues[k], destinations, sms, message);
        assert queues[..k + 1][..k] == queues[..k];
        k := k + 1;
      }
      assert queues[..k] == queues;
    }

    /** One queue of the forward loop: an API job for an API queue, a job per validated destination otherwise. */
    method ForwardToQueue(queue: string, destinations: seq<string>, sms: Sms, message: string)
      modifies this`outbox
      ensures outbox == old(outbox) + QueueJobs(Registered(), queue, destinations, sms, message)
    {
      if queue in apiHandlers {
        outbox := outbox + [ToApi(queue, sms.number, sms.time.iso, message)];
      } else if queue in emailHandlers || queue in modemHandlers {
        var reg := Registered();
        var toEmail := queue in emailHandlers;
        var m := 0;
        while m < |destinations|
          invariant 0 <= m <= |destinations|
          invariant outbox == old(outbox) + DestinationJobs(reg, queue, toEmail, destinations[..m], message)
        {
          var d := destinations[m];
          if ValidateDestination(reg, queue, d) {
            outbox := outbox + [if toEmail then ToEmail(queue, d, message) else ToModem(queue, d, message)];
          }
          assert destinations[..m + 1][..m] == destinations[..m];
          m := m + 1;
        }
        assert destinations[..m] == destinations;
      }
    }

    /**
     * `apply_rules`: every rule in order. The result is true when an empty `message` or `action`
     * list raised IndexError, which ends the loop and leaves the processor's caller.
     */
    method ApplyRules(modemName: string, sms: Sms) returns (aborted: bool)
      modifies this`outbox
      ensures outbox == old(outbox) + RulesOutcome(Registered(), rules, modemName, sms).jobs
      ensures aborted == RulesOutcome(Registered(), rules, modemName, sms).aborted
    {
      ghost var reg := Registered();
      var i := 0;
      while i < |rules|
        invariant 0 <= i <= |rules|
        invariant !RulesOutcome(reg, rules[..i], modemName, sms).aborted
        invariant outbox == old(outbox) + RulesOutcome(reg, rules[..i], modemName, sms).jobs
      {
        var rule := rules[i];
        var failed := ApplyRule(rule, modemName, sms);
        if failed {
          AbortingRuleStopsTheRest(reg, rules, i, modemName, sms);
          return true;
        }
        RulesOutcomeStep(reg, rules, i, modemName, sms);
        i := i + 1;
      }
      assert rules[..i] == rules;
      return false;
    }

    /**
     * One rule: a rule whose filters do not match is skipped; otherwise its text and action are
     * read (true for the IndexError of an empty list) and the message is forwarded or replied.
     */
    method ApplyRule(rule: Rule, modemName: string, sms: Sms) returns (failed: bool)
      modifies this`outbox
      ensures failed == RuleJobs(Registered(), rule, modemName, sms).Failure?
      ensures failed ==> outbox == old(outbox)
      ensures !failed ==> outbox == old(outbox) + RuleJobs(Registered(), rule, modemName, sms).value
    {
      if !SenderMatches(rule, sms.number) || !ContentMatches(rule, sms.text) {
        return false;
      }
      var message := Render(rule, modemName, sms);
      var action := Action(rule);
      if message.None? || action.None? {
        return true;
      }
      var queues := Queues(rule, modemName);
      if action.value == "forward" {
        Forward(queues, Destinations(rule, action.value, sms), sms, message.value);
      } else {
        Reply(queues, sms.number, message.value);
      }
      return false;
    }

    /**
     * `process_sms`: a message that comes out of reassembly complete is saved with the modem's
     * name and then goes through the rules.
     */
    method ProcessSms(modemName: string, sms: Sms, now: int) returns (complete: Option<Sms>, aborted: bool)
      requires Valid()
      modifies this
      ensures Valid()
      ensures Ingested(multipart, complete) == Ingest(old(multipart), modemName, sms, now)
      ensures complete.None? ==> saved == old(saved) && outbox == old(outbox) && !aborted
      ensures complete.Some? ==>
        saved == old(saved) + [(modemName, complete.value)] &&
        outbox == old(outbox) + RulesOutcome(Registered(), rules, modemName, complete.value).jobs &&
        aborted == RulesOutcome(Registered(), rules, modemName, complete.value).aborted
      ensures modemHandlers == old(modemHandlers) && emailHandlers == old(emailHandlers) && apiHandlers == old(apiHandlers)
    {
      complete := HandleMultipart(modemName, sms, now);
      aborted := false;
      if complete.Some? {
        saved := saved + [(modemName, complete.value)];
        aborted := ApplyRules(modemName, complete.value);
      }
    }
  }
}
