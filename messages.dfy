/** Values shared by the modem link, the SMS processor and the outbound handlers. */
module Messages {

  /** A clock reading: whole seconds (for comparisons) and the text `isoformat()` gives for it. */
  datatype Stamp = Stamp(seconds: int, iso: string)

  /**
   * One information element of a received message's user data header, as the modem library
   * parses it. `Concatenation` is the concatenated-short-message element of section 9.2.3.24.1
   * of 3GPP TS 23.040: the reference number shared by all parts, the number of parts and this
   * part's sequence number.
   */
  datatype UdhElement =
    | Concatenation(reference: int, parts: int, number: int)
    | OtherElement(iei: int)

  /** A received SMS: the sender's number, its time stamp, its text and its header elements. */
  datatype Sms = Sms(number: string, time: Stamp, text: string, udh: seq<UdhElement>)

  /** A queued outbound SMS or email: `{destination, text, retry_count}`. */
  datatype OutboundJob = OutboundJob(destination: string, text: string, retryCount: nat)

  /** What one iteration of a handler's worker loop did with the head of its queue. */
  datatype Step<J> =
    | Idle                               // the queue was empty: the worker would block in get()
    | Sent(job: J)                       // delivered; the job leaves the queue
    | Retried(job: J, delay: int)        // failed; re-queued at the tail after sleeping `delay`
    | Dropped(job: J)                    // failed with its retries used up
    | Lost(job: J)                       // an uncaught exception ended the worker thread
}
