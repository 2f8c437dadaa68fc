/**
 * One email account: a FIFO of outbound email jobs, an SMTP connection that is opened on
 * demand and torn down after a failed send (and after every job when `keep_alive` is off),
 * and the shared retry rule. The SMTP library is a success/failure oracle.
 */
module Email {
  import opened Wrappers
  import opened Messages
  import opened Retry

  const Subject := "SMS Gateway Notification"

  /** One entry of the `email_providers` section; a field is None when its key is absent. */
  datatype EmailConfig = EmailConfig(
    name: Option<string>,
    server: Option<string>,
    port: Option<int>,
    user: Option<string>,
    password: Option<string>,
    sender: Option<string>,
    keepAlive: Option<bool>)

  /** The message handed to `send_message`. */
  datatype Mail = Mail(from: string, to: string, subject: string, body: string)

  class EmailHandler {
    const name: string
    const server: string
    const port: int
    const user: string
    const password: string
    const sender: string
    const maxRetries: int
    const initialDelay: int
    const keepAlive: bool
    var queue: seq<OutboundJob>
    /** Whether `smtp` holds a connection (it is not None). */
    var connected: bool

    ghost predicate Valid()
      reads this
    {
      forall i :: 0 <= i < |queue| ==> WithinBudget(queue[i].retryCount, maxRetries)
    }

    constructor (config: EmailConfig, retry: RetrySettings)
      requires config.name.Some? && config.server.Some? && config.port.Some?
      requires config.user.Some? && config.password.Some? && config.sender.Some?
      ensures name == config.name.value && server == config.server.value && port == config.port.value
      ensures user == config.user.value && password == config.password.value && sender == config.sender.value
      ensures maxRetries == retry.maxRetries.GetOr(DefaultMaxRetries)
      ensures initialDelay == retry.initialDelay.GetOr(DefaultInitialDelay)
      ensures keepAlive == config.keepAlive.GetOr(true)
      ensures queue == [] && !connected && Valid()
    {
      name, server, port := config.name.value, config.server.value, config.port.value;
      user, password, sender := config.user.value, config.password.value, config.sender.value;
      maxRetries := retry.maxRetries.GetOr(DefaultMaxRetries);
      initialDelay := retry.initialDelay.GetOr(DefaultInitialDelay);
      keepAlive := config.keepAlive.GetOr(true);
      queue := [];
      connected := false;
    }

    /** Opens, secures and logs in: `smtp` is set on success and None on failure. */
    method Connect(serverAccepts: bool) returns (ok: bool)
      modifies this
      ensures ok == serverAccepts && connected == serverAccepts
      ensures queue == old(queue)
    {
      connected := serverAccepts;
      ok := serverAccepts;
    }

    /** Quits the session if there is one; `smtp` is None afterwards even if `quit` raises. */
    method Disconnect()
      modifies this
      ensures !connected && queue == old(queue)
    {
      connected := false;
    }

    /** Queues a new email job with retry count 0 at the tail. */
    method SendEmail(destination: string, text: string)
      requires Valid()
      modifies this
      ensures Valid()
      ensures queue == old(queue) + [OutboundJob(destination, text, 0)]
      ensures connected == old(connected)
    {
      queue := queue + [OutboundJob(destination, text, 0)];
    }

    /**
     * One delivery attempt: connects first when there is no connection (a failed connect fails
     * the attempt and sends nothing), then sends the composed message; a failed send
     * disconnects, so the next attempt starts from a fresh connection.
     */
    method SendEmailWithRetry(job: OutboundJob, serverAccepts: bool, sendSucceeds: bool)
      returns (ok: bool, mail: Option<Mail>)
      modifies this
      ensures mail.Some? <==> old(connected) || serverAccepts
      ensures mail.Some? ==> mail.value == Mail(sender, job.destination, Subject, job.text)
      ensures ok <==> mail.Some? && sendSucceeds
      ensures connected == ok
      ensures queue == old(queue)
    {
      if !connected {
        var c := Connect(serverAccepts);
        if !c {
          return false, None;
        }
      }
      mail := Some(Mail(sender, job.destination, Subject, job.text));
      if sendSucceeds {
        ok := true;
      } else {
        Disconnect();
        ok := false;
      }
    }

    /** `retry_message`, the same rule as the other handlers. */
    method RetryMessage(job: OutboundJob) returns (delay: Option<int>)
      requires Valid()
      modifies this
      ensures Valid()
      ensures delay == RetryDelay(maxRetries, initialDelay, job.retryCount)
      ensures queue == if delay.Some? then old(queue) + [job.(retryCount := job.retryCount + 1)]
                       else old(queue)
      ensures connected == old(connected)
    {
      delay := RetryDelay(maxRetries, initialDelay, job.retryCount);
      if delay.Some? {
        queue := queue + [job.(retryCount := job.retryCount + 1)];
      }
    }

    /** One iteration of the email worker on the head of the queue. */
    method ProcessEmailQueue(serverAccepts: bool, sendSucceeds: bool) returns (step: Step<OutboundJob>, mail: Option<Mail>)
      requires Valid()
      modifies this
      ensures Valid()
      ensures old(queue) == [] ==> step == Idle && mail.None? && queue == [] && connected == old(connected)
      ensures old(queue) != [] ==>
        var job, rest := old(queue)[0], old(queue)[1..];
        var delivered := (old(connected) || serverAccepts) && sendSucceeds;
        && (mail.Some? <==> old(connected) || serverAccepts)
        && (mail.Some? ==> mail.value == Mail(sender, job.destination, Subject, job.text))
        && connected == (delivered && keepAlive)
        && if delivered then step == Sent(job) && queue == rest
           else match RetryDelay(maxRetries, initialDelay, job.retryCount)
                case Some(d) => step == Retried(job, d) && queue == rest + [job.(retryCount := job.retryCount + 1)]
                case None => step == Dropped(job) && queue == rest
    {
      if queue == [] {
        return Idle, None;
      }
      var job := queue[0];
      queue := queue[1..];
      var ok;
      ok, mail := SendEmailWithRetry(job, serverAccepts, sendSucceeds);
      if ok {
        step := Sent(job);
      } else {
        var delay := RetryMessage(job);
        step := if delay.Some? then Retried(job, delay.value) else Dropped(job);
      }
      if !keepAlive {
        Disconnect();
      }
    }
  }
}
