/**
 * The rule engine of the SMS processor as functions: destination validation, the sender and
 * content filters, message rendering, and the jobs one rule or a list of rules sends to the
 * registered handlers.
 */
module Rules {
  import opened Wrappers
  import opened Strings
  import opened Messages

  /**
   * One configured rule. Every field is a JSON list, None when its key is absent: `sender`,
   * `content` (filters), `message` (the first element is the text), `action` (the first
   * element, lower-cased), `queue` (handler names) and `destination` (addresses to forward to).
   */
  datatype Rule = Rule(
    name: Option<string>,
    sender: Option<seq<string>>,
    content: Option<seq<string>>,
    message: Option<seq<string>>,
    action: Option<seq<string>>,
    queue: Option<seq<string>>,
    destination: Option<seq<string>>)

  /** The names registered with the processor for each kind of handler. */
  datatype Registry = Registry(modems: set<string>, emails: set<string>, apis: set<string>)

  /** A job handed to a named handler: `send_sms`, `send_email` or `send_api`. */
  datatype Job =
    | ToModem(queue: string, destination: string, text: string)
    | ToEmail(queue: string, destination: string, text: string)
    | ToApi(queue: string, sender: string, timestamp: string, text: string)

  // ---------------------------------------------------------------------------------------
  // validate_destination

  /** `^\+\d{6,15}$`: a plus sign and 6 to 15 digits. */
  predicate IsPhoneNumber(d: string) {
    7 <= |d| <= 16 && d[0] == '+' && forall i :: 1 <= i < |d| ==> IsDigit(d[i])
  }

  function CountOf(c: char, s: string): (n: nat)
    ensures n == 0 <==> c !in s
  {
    if s == [] then 0 else (if s[0] == c then 1 else 0) + CountOf(c, s[1..])
  }

  function IndexOf(c: char, s: string): (i: nat)
    requires c in s
    ensures i < |s| && s[i] == c && c !in s[..i]
  {
    if s[0] == c then 0 else 1 + IndexOf(c, s[1..])
  }

  /**
   * `^[^@]+@[^@]+\.[^@]+$`: exactly one '@', not first, and after it a dot that is neither the
   * first nor the last character of the domain.
   */
  predicate IsEmailAddress(d: string) {
    CountOf('@', d) == 1 &&
    var at := IndexOf('@', d);
    at > 0 && exists j :: at + 1 < j < |d| - 1 && d[j] == '.'
  }

  lemma {:induction false} CountOfAppend(c: char, a: string, b: string)
    ensures CountOf(c, a + b) == CountOf(c, a) + CountOf(c, b)
  {
    if a == [] {
      assert a + b == b;
    } else {
      CountOfAppend(c, a[1..], b);
      assert (a + b)[1..] == a[1..] + b;
    }
  }

  lemma {:induction false} IndexOfUnique(c: char, s: string, i: nat)
    requires i < |s| && s[i] == c && c !in s[..i]
    ensures IndexOf(c, s) == i
  {
    if i > 0 {
      assert s[0] == s[..i][0];
      assert s[1..][..i - 1] == s[..i][1..];
      IndexOfUnique(c, s[1..], i - 1);
    }
  }

  /** Every address of the regular expression's shape passes the check. */
  lemma EmailShapeIsAccepted(local: string, host: string, tld: string)
    requires local != [] && host != [] && tld != []
    requires '@' !in local && '@' !in host && '@' !in tld
    ensures IsEmailAddress(local + "@" + host + "." + tld)
  {
    var d := local + "@" + host + "." + tld;
    CountOfAppend('@', local + "@" + host + ".", tld);
    CountOfAppend('@', local + "@" + host, ".");
    CountOfAppend('@', local + "@", host);
    CountOfAppend('@', local, "@");
    assert CountOf('@', d) == 1;
    assert d[|local|] == '@';
    assert d[..|local|] == local;
    IndexOfUnique('@', d, |local|);
    var j := |local| + 1 + |host|;
    assert d[j] == '.';
  }

  /** Every address that passes the check has the regular expression's shape. */
  lemma EmailAcceptedHasShape(d: string) returns (local: string, host: string, tld: string)
    requires IsEmailAddress(d)
    ensures d == local + "@" + host + "." + tld
    ensures local != [] && host != [] && tld != []
    ensures '@' !in local && '@' !in host && '@' !in tld
  {
    var at := IndexOf('@', d);
    NoSecondAt(d);
    var j :| at + 1 < j < |d| - 1 && d[j] == '.';
    local, host, tld := d[..at], d[at + 1..j], d[j + 1..];
    NotInSlice('@', d[at + 1..], 0, j - at - 1);
    NotInSlice('@', d[at + 1..], j - at, |d| - at - 1);
    assert d[at + 1..][..j - at - 1] == host && d[at + 1..][j - at..] == tld;
    SplitAround(d, at, j);
  }

  /** After the first '@' of an address with one '@' there is no other. */
  lemma NoSecondAt(d: string)
    requires '@' in d && CountOf('@', d) == 1
    ensures '@' !in d[IndexOf('@', d) + 1..]
  {
    var at := IndexOf('@', d);
    assert d == d[..at + 1] + d[at + 1..];
    CountOfAppend('@', d[..at + 1], d[at + 1..]);
    assert d[..at + 1][at] == '@';
  }

  lemma NotInSlice(c: char, s: string, i: nat, j: nat)
    requires i <= j <= |s| && c !in s
    ensures c !in s[i..j]
  {
    forall k | 0 <= k < j - i ensures s[i..j][k] != c {
      assert s[i..j][k] == s[i + k];
    }
  }

  lemma SplitAround(d: string, at: nat, j: nat)
    requires at < j < |d|
    ensures d == d[..at] + [d[at]] + d[at + 1..j] + [d[j]] + d[j + 1..]
  {
    assert d == d[..at] + [d[at]] + d[at + 1..];
    assert d[at + 1..] == d[at + 1..j] + [d[j]] + d[j + 1..];
  }

  /**
   * `validate_destination`: an empty destination is refused; for a modem name it must be a
   * phone number, otherwise for an email name an email address; any other name accepts it.
   */
  function ValidateDestination(reg: Registry, queue: string, destination: string): (ok: bool)
    ensures destination == [] ==> !ok
    ensures destination != [] && queue in reg.modems ==> (ok <==> IsPhoneNumber(destination))
    ensures destination != [] && queue !in reg.modems && queue in reg.emails ==> (ok <==> IsEmailAddress(destination))
    ensures destination != [] && queue !in reg.modems && queue !in reg.emails ==> ok
  {
    if destination == [] then false
    else if queue in reg.modems then IsPhoneNumber(destination)
    else if queue in reg.emails then IsEmailAddress(destination)
    else true
  }

  // ---------------------------------------------------------------------------------------
  // Filters and rendering

  /** An absent or empty sender list matches any sender. */
  predicate SenderMatches(rule: Rule, number: string) {
    rule.sender.None? || rule.sender.value == [] || number in rule.sender.value
  }

  /** An absent or empty content list matches any text; otherwise one entry must occur, ignoring case. */
  predicate ContentMatches(rule: Rule, text: string) {
    rule.content.None? || rule.content.value == [] ||
    exists i :: 0 <= i < |rule.content.value| && IsSubstring(Lower(rule.content.value[i]), Lower(text))
  }

  /** The envelope that replaces a message containing "encap". */
  function Envelope(modemName: string, sms: Sms): string {
    "Sender: " + sms.number + ", Time: " + sms.time.iso + ", Modem: " + modemName + ", Message: " + sms.text
  }

  /**
   * The rendered text: the first element of `message` (by default the SMS text), replaced by
   * the envelope when it contains "encap" in any case. None is the IndexError of an empty list.
   */
  function Render(rule: Rule, modemName: string, sms: Sms): (r: Option<string>)
    ensures r.None? <==> rule.message == Some([])
    ensures rule.message.None? ==> r == Some(if IsSubstring("encap", Lower(sms.text)) then Envelope(modemName, sms) else sms.text)
    ensures rule.message.Some? && rule.message.value != [] ==>
      var m := rule.message.value[0];
      r == Some(if IsSubstring("encap", Lower(m)) then Envelope(modemName, sms) else m)
  {
    var items := rule.message.GetOr([sms.text]);
    if items == [] then None
    else if IsSubstring("encap", Lower(items[0])) then Some(Envelope(modemName, sms))
    else Some(items[0])
  }

  // ---------------------------------------------------------------------------------------
  // Dispatch

  /** `reply`: one SMS to the sender from each listed queue that names a modem. */
  function ReplyJobs(reg: Registry, queues: seq<string>, number: string, message: string): seq<Job> {
    if queues == [] then []
    else
      var q := queues[|queues| - 1];
      ReplyJobs(reg, queues[..|queues| - 1], number, message)
        + (if q in reg.modems then [ToModem(q, number, message)] else [])
  }

  /** The jobs for one email or modem queue: one per destination that passes validation. */
  function DestinationJobs(reg: Registry, queue: string, toEmail: bool, destinations: seq<string>, message: string): seq<Job> {
    if destinations == [] then []
    else
      var d := destinations[|destinations| - 1];
      DestinationJobs(reg, queue, toEmail, destinations[..|destinations| - 1], message)
        + (if ValidateDestination(reg, queue, d) then [if toEmail then ToEmail(queue, d, message) else ToModem(queue, d, message)] else [])
  }

  /** The jobs `forward` sends to one queue: an API name wins over an email name, which wins over a modem name. */
  function QueueJobs(reg: Registry, queue: string, destinations: seq<string>, sms: Sms, message: string): seq<Job> {
    if queue in reg.apis then [ToApi(queue, sms.number, sms.time.iso, message)]
    else if queue in reg.emails then DestinationJobs(reg, queue, true, destinations, message)
    else if queue in reg.modems then DestinationJobs(reg, queue, false, destinations, message)
    else []
  }

  /** `forward`: the jobs for every listed queue, in list order. */
  function ForwardJobs(reg: Registry, queues: seq<string>, destinations: seq<string>, sms: Sms, message: string): seq<Job> {
    if queues == [] then []
    else
      ForwardJobs(reg, queues[..|queues| - 1], destinations, sms, message)
        + QueueJobs(reg, queues[|queues| - 1], destinations, sms, message)
  }

  /** The lower-cased action, or None for the IndexError of an empty `action` list. */
  function Action(rule: Rule): Option<string> {
    var actions := rule.action.GetOr(["reply"]);
    if actions == [] then None else Some(Lower(actions[0]))
  }

  /** The queue list, by default the receiving modem. */
  function Queues(rule: Rule, modemName: string): seq<string> {
    rule.queue.GetOr([modemName])
  }

  /** The destination list, by default the sender for `reply` and empty otherwise. */
  function Destinations(rule: Rule, action: string, sms: Sms): seq<string> {
    rule.destination.GetOr(if action == "reply" then [sms.number] else [])
  }

  /**
   * The jobs one rule sends: none when a filter skips it; otherwise `forward` forwards and
   * every other action (`reply` and unknown ones) replies. Failure is the IndexError raised
   * for an empty `message` or `action` list.
   */
  function RuleJobs(reg: Registry, rule: Rule, modemName: string, sms: Sms): (r: Result<seq<Job>, string>)
    ensures !SenderMatches(rule, sms.number) || !ContentMatches(rule, sms.text) ==> r == Success([])
    ensures r.Failure? <==>
      SenderMatches(rule, sms.number) && ContentMatches(rule, sms.text) &&
      (rule.message == Some([]) || rule.action == Some([]))
  {
    if !SenderMatches(rule, sms.number) || !ContentMatches(rule, sms.text) then Success([])
    else
      match Render(rule, modemName, sms)
      case None => Failure("IndexError: message")
      case Some(message) =>
        match Action(rule)
        case None => Failure("IndexError: action")
        case Some(action) =>
          if action == "forward" then
            Success(ForwardJobs(reg, Queues(rule, modemName), Destinations(rule, action, sms), sms, message))
          else
            Success(ReplyJobs(reg, Queues(rule, modemName), sms.number, message))
  }

  /** What `apply_rules` sent, and whether an exception ended it before the last rule. */
  datatype Outcome = Outcome(jobs: seq<Job>, aborted: bool)

  /** Every rule in list order; an exception stops the loop, keeping the jobs already sent. */
  function RulesOutcome(reg: Registry, rules: seq<Rule>, modemName: string, sms: Sms): Outcome {
    if rules == [] then Outcome([], false)
    else
      var before := RulesOutcome(reg, rules[..|rules| - 1], modemName, sms);
      if before.aborted then before
      else
        match RuleJobs(reg, rules[|rules| - 1], modemName, sms)
        case Failure(_) => Outcome(before.jobs, true)
        case Success(js) => Outcome(before.jobs + js, false)
  }

  // ---------------------------------------------------------------------------------------
  // Properties of dispatch

  /** `reply` sends exactly one SMS per listed modem queue, to the sender, with the rendered text. */
  lemma {:induction false} ReplyJobsMembers(reg: Registry, queues: seq<string>, number: string, message: string, j: Job)
    ensures j in ReplyJobs(reg, queues, number, message) <==>
      exists i :: 0 <= i < |queues| && queues[i] in reg.modems && j == ToModem(queues[i], number, message)
  {
    if queues != [] {
      var init := queues[..|queues| - 1];
      ReplyJobsMembers(reg, init, number, message, j);
      forall i | 0 <= i < |init| ensures queues[i] == init[i] { }
    }
  }

  /** A modem or email queue receives one job per destination that passes validation, and no other. */
  lemma {:induction false} DestinationJobsMembers(reg: Registry, queue: string, toEmail: bool, destinations: seq<string>, message: string, j: Job)
    ensures j in DestinationJobs(reg, queue, toEmail, destinations, message) <==>
      exists i :: 0 <= i < |destinations| && ValidateDestination(reg, queue, destinations[i]) &&
        j == (if toEmail then ToEmail(queue, destinations[i], message) else ToModem(queue, destinations[i], message))
  {
    if destinations != [] {
      var init := destinations[..|destinations| - 1];
      DestinationJobsMembers(reg, queue, toEmail, init, message, j);
      forall i | 0 <= i < |init| ensures destinations[i] == init[i] { }
    }
  }

  /** `forward` sends a job exactly when one of the listed queues sends it. */
  lemma {:induction false} ForwardJobsMembers(reg: Registry, queues: seq<string>, destinations: seq<string>, sms: Sms, message: string, j: Job)
    ensures j in ForwardJobs(reg, queues, destinations, sms, message) <==>
      exists i :: 0 <= i < |queues| && j in QueueJobs(reg, queues[i], destinations, sms, message)
  {
    if queues != [] {
      var init, last := queues[..|queues| - 1], queues[|queues| - 1];
      assert ForwardJobs(reg, queues, destinations, sms, message)
          == ForwardJobs(reg, init, destinations, sms, message) + QueueJobs(reg, last, destinations, sms, message);
      ForwardJobsMembers(reg, init, destinations, sms, message, j);
      forall i | 0 <= i < |init| ensures queues[i] == init[i] { }
    }
  }

  /** An API queue gets the sender, the time and the text once, whatever the destinations. */
  lemma ApiQueueIgnoresDestinations(reg: Registry, queue: string, d1: seq<string>, d2: seq<string>, sms: Sms, message: string)
    requires queue in reg.apis
    ensures QueueJobs(reg, queue, d1, sms, message) == QueueJobs(reg, queue, d2, sms, message)
              == [ToApi(queue, sms.number, sms.time.iso, message)]
  {
  }

  /** The jobs sent by the first k rules are sent first, whatever the later rules do. */
  lemma {:induction false} RulesOutcomePrefix(reg: Registry, rules: seq<Rule>, k: nat, modemName: string, sms: Sms)
    requires k <= |rules|
    ensures RulesOutcome(reg, rules[..k], modemName, sms).jobs <= RulesOutcome(reg, rules, modemName, sms).jobs
    ensures RulesOutcome(reg, rules[..k], modemName, sms).aborted ==>
              RulesOutcome(reg, rules, modemName, sms) == RulesOutcome(reg, rules[..k], modemName, sms)
    decreases |rules|
  {
    if k < |rules| {
      var init := rules[..|rules| - 1];
      assert init[..k] == rules[..k];
      RulesOutcomePrefix(reg, init, k, modemName, sms);
    } else {
      assert rules[..k] == rules;
    }
  }

  /** An empty `message` or `action` list in a matching rule ends the loop: no later rule sends anything. */
  lemma AbortingRuleStopsTheRest(reg: Registry, rules: seq<Rule>, k: nat, modemName: string, sms: Sms)
    requires k < |rules|
    requires !RulesOutcome(reg, rules[..k], modemName, sms).aborted
    requires RuleJobs(reg, rules[k], modemName, sms).Failure?
    ensures RulesOutcome(reg, rules, modemName, sms) == Outcome(RulesOutcome(reg, rules[..k], modemName, sms).jobs, true)
  {
    assert rules[..k + 1][..k] == rules[..k];
    RulesOutcomePrefix(reg, rules, k + 1, modemName, sms);
  }

  /** Without an aborting rule the jobs are the concatenation of every rule's jobs, in rule order. */
  lemma {:induction false} RulesOutcomeAppend(reg: Registry, rules: seq<Rule>, rule: Rule, modemName: string, sms: Sms, js: seq<Job>)
    requires !RulesOutcome(reg, rules, modemName, sms).aborted
    requires RuleJobs(reg, rule, modemName, sms) == Success(js)
    ensures RulesOutcome(reg, rules + [rule], modemName, sms) == Outcome(RulesOutcome(reg, rules, modemName, sms).jobs + js, false)
  {
    assert (rules + [rule])[..|rules|] == rules;
  }

  /** The same step for the first `k + 1` rules of a list. */
  lemma RulesOutcomeStep(reg: Registry, rules: seq<Rule>, k: nat, modemName: string, sms: Sms)
    requires k < |rules|
    requires !RulesOutcome(reg, rules[..k], modemName, sms).aborted
    requires RuleJobs(reg, rules[k], modemName, sms).Success?
    ensures RulesOutcome(reg, rules[..k + 1], modemName, sms)
         == Outcome(RulesOutcome(reg, rules[..k], modemName, sms).jobs + RuleJobs(reg, rules[k], modemName, sms).value, false)
  {
    assert rules[..k + 1] == rules[..k] + [rules[k]];
    RulesOutcomeAppend(reg, rules[..k], rules[k], modemName, sms, RuleJobs(reg, rules[k], modemName, sms).value);
  }

  // ---------------------------------------------------------------------------------------
  // Worked examples

  lemma DestinationExamples()
    ensures IsPhoneNumber("+15551234567")
    ensures !IsPhoneNumber("notaphone")
    ensures IsEmailAddress("a@b.co")
    ensures !IsEmailAddress("a@b")
  {
    EmailShapeIsAccepted("a", "b", "co");
    assert "a" + "@" + "b" + "." + "co" == "a@b.co";
    assert "notaphone"[0] != '+';
    assert IndexOf('@', "a@b") == 1;
  }

  /**
   * A rule with one content keyword, the message "OK" and the action "reply" answers every
   * message that contains the keyword (in any case) with "OK", from the receiving modem.
   */
  lemma KeywordReplyExample(modemName: string, sms: Sms, keyword: string)
    requires IsSubstring(Lower(keyword), Lower(sms.text))
    ensures
      var rule := Rule(None, None, Some([keyword]), Some(["OK"]), Some(["reply"]), None, None);
      var reg := Registry({modemName}, {}, {});
      RulesOutcome(reg, [rule], modemName, sms) == Outcome([ToModem(modemName, sms.number, "OK")], false)
  {
    var rule := Rule(None, None, Some([keyword]), Some(["OK"]), Some(["reply"]), None, None);
    var reg := Registry({modemName}, {}, {});
    KeywordRuleJobs(modemName, sms, keyword);
    RulesOutcomeAppend(reg, [], rule, modemName, sms, [ToModem(modemName, sms.number, "OK")]);
    assert [] + [rule] == [rule];
  }

  lemma KeywordRuleJobs(modemName: string, sms: Sms, keyword: string)
    requires IsSubstring(Lower(keyword), Lower(sms.text))
    ensures
      var rule := Rule(None, None, Some([keyword]), Some(["OK"]), Some(["reply"]), None, None);
      RuleJobs(Registry({modemName}, {}, {}), rule, modemName, sms) == Success([ToModem(modemName, sms.number, "OK")])
  {
    var rule := Rule(None, None, Some([keyword]), Some(["OK"]), Some(["reply"]), None, None);
    var reg := Registry({modemName}, {}, {});
    assert rule.content.value[0] == keyword;
    assert ContentMatches(rule, sms.text);
    NoEncapInOk();
    LowerReply();
    assert Render(rule, modemName, sms) == Some("OK");
    assert Action(rule) == Some("reply");
    assert ReplyJobs(reg, [modemName], sms.number, "OK") == [ToModem(modemName, sms.number, "OK")] by {
      assert [modemName][..0] == [];
    }
  }

  /**
   * A rule without filters whose message contains "encap" in any case, forwarding to a
   * registered API queue, hands that queue the envelope of the SMS and nothing else.
   */
  lemma EncapForwardExample(modemName: string, sms: Sms, template: string, queue: string)
    requires IsSubstring("encap", Lower(template))
    ensures
      var rule := Rule(None, None, None, Some([template]), Some(["forward"]), Some([queue]), None);
      RuleJobs(Registry({}, {}, {queue}), rule, modemName, sms)
        == Success([ToApi(queue, sms.number, sms.time.iso, Envelope(modemName, sms))])
  {
    var rule := Rule(None, None, None, Some([template]), Some(["forward"]), Some([queue]), None);
    var reg := Registry({}, {}, {queue});
    EncapRenders(rule, modemName, sms, template);
    ForwardAction(rule);
    ForwardOneQueue(reg, queue, Destinations(rule, "forward", sms), sms, Envelope(modemName, sms));
  }

  lemma EncapRenders(rule: Rule, modemName: string, sms: Sms, template: string)
    requires rule.message == Some([template]) && IsSubstring("encap", Lower(template))
    ensures Render(rule, modemName, sms) == Some(Envelope(modemName, sms))
  {
  }

  lemma ForwardAction(rule: Rule)
    requires rule.action == Some(["forward"])
    ensures Action(rule) == Some("forward")
  {
    LowerForward();
  }

  /** Forwarding to a single queue sends that queue's jobs. */
  lemma ForwardOneQueue(reg: Registry, queue: string, destinations: seq<string>, sms: Sms, message: string)
    ensures ForwardJobs(reg, [queue], destinations, sms, message) == QueueJobs(reg, queue, destinations, sms, message)
  {
    assert [queue][..0] == [];
  }

  lemma LowerForward()
    ensures Lower("forward") == "forward"
  {
  }

  lemma NoEncapInOk()
    ensures !IsSubstring("encap", Lower("OK"))
  {
    assert |Lower("OK")| == 2;
  }

  lemma LowerReply()
    ensures Lower("reply") == "reply"
  {
  }
}
