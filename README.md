# SMS gateway — a verified model

This project models the core of an SMS gateway written in Python. One or more GSM modems
receive SMS messages. A processor reassembles multipart (concatenated) messages, stores every
complete message, and applies configurable rules. Depending on a rule, a message is answered
through a modem, forwarded by e-mail, or posted to an HTTP API. Each outbound handler
(modem, e-mail, API) has a queue and retries a failed job with exponential backoff. The model
also covers an in-memory message store with a retention window, the start-up code that checks
the configuration and registers the handlers, and a maintenance tool that decodes the modem's
PDU listing (GSM 7-bit text and the sender's semi-octet number).

The model has one Dafny module per source file:

- `Retry`: the backoff rule shared by all three handlers.
- `MemoryStore`: the in-memory store.
- `Modem`, `Email`, `Api`: the handler classes.
- `Multipart` and `Rules`: the pure parts of the processor.
- `Processor`: the processor class.
- `ClearSms`: the PDU tool.
- `Gateway`: configuration loading and start-up.

Four small modules hold shared definitions: `Wrappers` (Option and Result), `Strings`
(ASCII case, strip, Python slicing, split and join), `Powers` (powers of two) and `Messages`
(the SMS value, its UDH elements, an outbound job and the outcome of one worker iteration).

Each handler class keeps its queue as a sequence field. One iteration of a worker thread is one
method call. The method returns what the iteration did (idle, sent, re-queued with a delay,
dropped, or lost) instead of sleeping. Results of third-party libraries enter as parameters:

- whether the SMTP server accepts a login;
- whether a send succeeds;
- the HTTP response;
- the modem's network coverage on each attempt.

The processor keeps the names of registered handlers. Every job it hands to a handler is
appended to one `outbox` sequence, in order.

Where the design description and the code differ, the model follows the code:

- There is no immediate-send mode and no stale-sweeping thread. Stale multipart rows are
  meant to be removed only when a new fragment is stored. As written, that removal runs while
  the fragment's own insert still holds the database's write lock, so it fails whenever a
  stale row exists (see "## Findings"). The model stores the fragment and removes the stale
  rows, as intended.
- An HTTP response fails only for status 400–599 (`raise_for_status`), not for every non-2xx
  status.
- The forwarded envelope text follows the format string in the code.
- A rule with an empty `message` or `action` list raises IndexError. This abandons the
  remaining rules and ends the incoming thread. The model reports it as `aborted`.
- An unsupported API method raises ValueError outside the request-error handler. This ends
  the API worker with the job lost.

## Model

| member | source | states |
|---|---|---|
| Strings.SplitJoin | tools/clear-sms.py:105 | splitting a response on a separator and joining the pieces with it gives back the response |
| Retry.RetryDelay | modem.py:94-102 | a failed job is re-queued (with a delay) exactly when its retry count is below `max_retries` |
| Retry.RequeueWithinBudget | modem.py:94-100 | a re-queued job's incremented retry count stays within the retry budget |
| Retry.BackoffDoubles | modem.py:96 | each successive backoff delay is twice the previous one |
| Retry.FailingRunTotals | modem.py:74-102 | a job that always fails is attempted `max_retries - retry_count + 1` times and sleeps `initial_delay * (2^max - 2^count)` in total |
| Retry.FreshJobAttempts | modem.py:74-105 | a new job that always fails is attempted `max_retries + 1` times and sleeps `initial_delay * (2^max_retries - 1)` before it is dropped |
| MemoryStore.KeepRecentMembers | memory_store.py:31-34 | an entry survives cleanup iff it was present and is younger than the retention window |
| MemoryStore.KeepRecentAppend | memory_store.py:31-34 | cleanup acts entry by entry and keeps the survivors in their original order |
| MemoryStore.KeepRecentUnchanged | memory_store.py:31-35 | cleanup removes nothing iff every entry is within the retention window |
| MemoryStore.KeepRecentIdempotent | memory_store.py:25-35 | a second cleanup at the same time removes nothing more |
| MemoryStore.SavedEntrySurvivesCleanup | memory_store.py:31-44 | a message saved no longer ago than the retention window is still present after cleanup |
| MemoryStore.MemoryStore.constructor | memory_store.py:7-11 | the store starts empty, with a retention of `retention_days` days in seconds |
| MemoryStore.MemoryStore.SaveSms | memory_store.py:41-44 | the message is appended with its modem name and timestamp; nothing else changes |
| MemoryStore.MemoryStore.CleanupOldMessages | memory_store.py:25-39 | the entries become the recent ones, and the count returned is the number removed |
| MemoryStore.MemoryStore.GetAllSms | memory_store.py:47-50 | returns every stored entry, in order, without changing the store |
| Modem.ModemHandler.constructor | modem.py:9-20 | name defaults to "UnnamedModem", network retries to 3, retry settings to 3 and 10; the queue starts empty |
| Modem.ModemHandler.Start | modem.py:22-38 | start raises the missing-key error iff `baudrate` is absent; otherwise it is started iff `pin` is present and the link connects, and reports a failed connect when `pin` is absent (its KeyError is caught with the connect error) |
| Modem.ModemHandler.HandleSms | modem.py:40-42 | an incoming SMS is appended to the incoming queue |
| Modem.ModemHandler.ProcessIncoming | modem.py:61-67 | the oldest incoming SMS is taken off the queue and handed to the processor with this modem's name; an empty queue, or a modem whose worker never started, is idle and keeps its queue |
| Modem.ModemHandler.SendSms | modem.py:104-105 | queues a new job with retry count 0 at the end of the outgoing queue |
| Modem.ModemHandler.SendWithCoverage | modem.py:76-89 | the SMS is delivered iff some attempt within `network_retries` has coverage and succeeds, and no earlier one had coverage |
| Modem.ModemHandler.RetryMessage | modem.py:94-102 | a failed job is re-queued with retry count +1 and delay `initial * 2^count` while below the limit, else dropped |
| Modem.ModemHandler.ProcessOutgoing | modem.py:69-92 | the oldest outgoing job is sent, and on failure retried or dropped; queued jobs stay within budget; an empty queue, or a modem whose worker never started, is idle and keeps its queue |
| Email.EmailHandler.constructor | email_handler.py:10-23 | all configured fields are kept, keep-alive defaults to true, the handler starts disconnected with an empty queue |
| Email.EmailHandler.Connect | email_handler.py:35-45 | afterwards the handler is connected iff the server accepted the login |
| Email.EmailHandler.Disconnect | email_handler.py:47-55 | afterwards the handler is not connected |
| Email.EmailHandler.SendEmail | email_handler.py:99-100 | queues a new job with retry count 0 at the end of the queue |
| Email.EmailHandler.SendEmailWithRetry | email_handler.py:70-87 | a mail (fixed subject, configured sender, job's destination and text) is sent iff the connection is up or re-established; success iff it was sent and delivered; a failure drops the connection |
| Email.EmailHandler.RetryMessage | email_handler.py:89-97 | re-queues with retry count +1 and the doubled delay while below the limit, else drops |
| Email.EmailHandler.ProcessEmailQueue | email_handler.py:57-68 | one job is delivered or retried; afterwards the connection stays open only after a delivery with keep-alive |
| Api.FormatLiteralPrefix | api_handler.py:48-58 | text with no braces is left unchanged by template formatting, and formatting distributes over such a prefix |
| Api.FormatLiteral | api_handler.py:48-58 | a template without placeholders formats to itself |
| Api.FormatPlaceholders | api_handler.py:48-58 | each of the three placeholders `{sender}`, `{timestamp}`, `{message}` is replaced by its field |
| Api.BuildPayload | api_handler.py:55-58 | the payload has the template's keys; string values are formatted and other values copied unchanged |
| Api.BuildHeaders | api_handler.py:49-54 | the headers are the template's keys plus `User-Agent`, which is added only when absent |
| Api.ApiHandler.constructor | api_handler.py:8-19 | the method is upper-cased and defaults to POST, the timeout defaults to 10, the queue starts empty |
| Api.ApiHandler.BuildRequest | api_handler.py:42-69 | fails iff the method is not POST, GET or PUT; the URL is the formatted endpoint; GET sends the payload as parameters only when it is non-empty, POST and PUT as JSON |
| Api.ApiHandler.SendApiRequest | api_handler.py:42-79 | accepted iff the request is built and the response is a status outside 400–599; unsupported if the method is unsupported |
| Api.ApiHandler.SendApi | api_handler.py:91-97 | queues a new job with retry count 0 at the end of the queue |
| Api.ApiHandler.RetryMessage | api_handler.py:81-89 | re-queues with retry count +1 and the doubled delay while below the limit, else drops |
| Api.ApiHandler.ProcessApiQueue | api_handler.py:31-40 | one job is sent, then retried or dropped; an unsupported method loses the job and ends the worker |
| Multipart.FirstConcatenation | sms_processor.py:51-54 | finds the first concatenation element of the UDH; None iff there is none |
| Multipart.FirstConcatenationAt | sms_processor.py:53-54 | the element at `i` is the first concatenation iff it is one and no element before it is |
| Multipart.AssembleIsAscending | sms_processor.py:79-85 | the reassembled text joins the stored parts in ascending part number |
| Multipart.AssembleParts | sms_processor.py:79-85 | computes the joined text of the stored parts in ascending part order |
| Multipart.RemoveStaleWithoutStaleRows | sms_processor.py:99-105 | removing stale rows changes nothing when no row is older than 30 minutes |
| Multipart.IngestKeepsTableValid | sms_processor.py:47-107 | storing a fragment never leaves an empty group in the table |
| Multipart.SinglePartPassesThrough | sms_processor.py:51-107 | an SMS without a concatenation element is returned unchanged and the table is untouched |
| Multipart.DuplicateIsRejected | sms_processor.py:61-69 | a part number already stored for its group is rejected and nothing changes |
| Multipart.IngestAtFirst | sms_processor.py:51-55 | the scan that stops at the first concatenation element handles exactly that element |
| Multipart.CompletionJoinsAndDeletes | sms_processor.py:71-98 | the fragment that completes its group yields the SMS with the parts joined in order, and the group is deleted |
| Multipart.IncompleteIsStored | sms_processor.py:99-106 | a new fragment that does not complete its group is stored, and stale rows are removed |
| Multipart.AsWrittenAgreesWithoutStale | sms_processor.py:61-106 | the ingestion as the code runs it fails exactly for a new, non-completing fragment that leaves a stale row in the table; otherwise it agrees with the intended ingestion |
| Multipart.StaleRowBlocksStore | sms_processor.py:99-106 | with a stale row in the table, a new non-completing fragment is lost as written, while the intended ingestion changes the table |
| Rules.EmailShapeIsAccepted | sms_processor.py:121 | every `local@host.tld` with non-empty, `@`-free parts is accepted as an e-mail address |
| Rules.EmailAcceptedHasShape | sms_processor.py:121 | every accepted e-mail address has that shape |
| Rules.ValidateDestination | sms_processor.py:109-124 | an empty destination is refused; for a registered modem name the destination must be a phone number, otherwise for a registered e-mail name an e-mail address; any other queue name accepts every non-empty destination |
| Rules.Render | sms_processor.py:140-144 | the text is the SMS text without a message; for a non-empty message list it is the envelope when the first template contains "encap" in any case, and that template otherwise; fails iff the message list is empty |
| Rules.RuleJobs | sms_processor.py:128-183 | a rule whose filters do not match adds nothing; a matching rule fails iff its message or action list is empty |
| Rules.ReplyJobsMembers | sms_processor.py:150-183 | a reply job exists iff the queue is a registered modem; unknown queues are ignored |
| Rules.DestinationJobsMembers | sms_processor.py:166-175 | a forward job is produced exactly for each valid destination |
| Rules.ForwardJobsMembers | sms_processor.py:157-177 | forward jobs deliver to valid destinations of registered queues, API taking precedence over e-mail, and e-mail over modem |
| Rules.ApiQueueIgnoresDestinations | sms_processor.py:160-165 | a registered API queue gets exactly one job whatever the destinations are |
| Rules.RulesOutcomePrefix | sms_processor.py:128-183 | the jobs of a prefix of the rule list are a prefix of the jobs of the whole list |
| Rules.AbortingRuleStopsTheRest | sms_processor.py:140-148 | after an aborting rule no later rule contributes jobs |
| Rules.RulesOutcomeStep | sms_processor.py:128-183 | a rule that does not abort adds its jobs after those of the rules before it |
| Rules.RulesOutcomeAppend | sms_processor.py:126-183 | rule outcomes compose: the rules are applied in order and only until one aborts |
| Rules.DestinationExamples | sms_processor.py:116-123 | sample numbers and addresses are accepted or rejected as the patterns say |
| Rules.EncapForwardExample | sms_processor.py:140-165 | a forwarding rule whose template contains "encap" in any case sends one API job carrying the envelope of the SMS and the receiving modem's name |
| Rules.KeywordReplyExample | sms_processor.py:126-156 | a rule with one keyword, message "OK" and action "reply" answers every message containing the keyword, in any case, with "OK" from the receiving modem |
| Processor.SmsProcessor.constructor | sms_processor.py:7-29 | no handlers are registered, nothing is saved or queued, and the multipart table is the one the database file already holds (it is created only if absent) |
| Processor.SmsProcessor.RegisterModem | sms_processor.py:31-32 | the modem handler's name is added to the registered modems; nothing else changes |
| Processor.SmsProcessor.RegisterEmail | sms_processor.py:34-35 | the name is added to the registered e-mail handlers; nothing else changes |
| Processor.SmsProcessor.RegisterApi | sms_processor.py:37-38 | the name is added to the registered API handlers; nothing else changes |
| Processor.SmsProcessor.CleanupOldMultipart | sms_processor.py:185-188 | removes exactly the fragments older than 30 minutes |
| Processor.SmsProcessor.HandleMultipart | sms_processor.py:47-107 | the new table and returned SMS are those of ingesting the SMS into the old table |
| Processor.SmsProcessor.StoreFragment | sms_processor.py:55-106 | a concatenation fragment is rejected as a duplicate, completes its group, or is stored with the stale rows removed |
| Processor.SmsProcessor.Reply | sms_processor.py:150-156 | appends exactly the reply jobs of the rule to the outbox |
| Processor.SmsProcessor.Forward | sms_processor.py:157-177 | appends exactly the forward jobs of the rule to the outbox |
| Processor.SmsProcessor.ForwardToQueue | sms_processor.py:161-175 | one forward queue: an API queue gets one job, an e-mail or modem queue one job per valid destination, any other queue none |
| Processor.SmsProcessor.ApplyRule | sms_processor.py:128-183 | a rule fails (by IndexError) iff its filters match and its message or action list is empty, and then appends nothing; otherwise it appends exactly its jobs, none when the filters do not match |
| Processor.SmsProcessor.ApplyRules | sms_processor.py:126-183 | appends the jobs of the rules applied in order to the outbox, and reports whether a rule aborted |
| Processor.SmsProcessor.ProcessSms | sms_processor.py:40-45 | a complete SMS is saved and the rules are applied to it; an incomplete fragment only changes the table |
| ClearSms.HexInt | tools/clear-sms.py:75 | base-16 parsing succeeds iff the text is non-empty and all hex digits |
| ClearSms.HexIntOfByteHex | tools/clear-sms.py:75 | parsing the two hex digits of a byte gives back the byte |
| ClearSms.FromHexOfToHex | tools/clear-sms.py:58 | decoding the hex text of a byte string gives back the bytes |
| ClearSms.NumberBitsValue | tools/clear-sms.py:61 | the bit string of a number, most significant bit first, has that number as its value |
| ClearSms.ByteBits | tools/clear-sms.py:61 | a byte's bit string has 8 bits and the byte's value |
| ClearSms.BitsOfByte | tools/clear-sms.py:59-62 | the bit string of the bytes is the concatenation of each byte's 8 bits, in order |
| ClearSms.CollectBits | tools/clear-sms.py:58-62 | the collected bits are each byte's eight bits, most significant first, in byte order |
| ClearSms.DecodeGsm7 | tools/clear-sms.py:56-71 | the loops compute the GSM 7-bit decoding of the hex text |
| ClearSms.Gsm7Septets | tools/clear-sms.py:56-71 | decoding fails iff the hex text does not parse; otherwise character i is the character of septet i, read MSB first, for every complete septet below `num_chars` |
| ClearSms.Gsm7Printable | tools/clear-sms.py:69 | every decoded character is printable ASCII (32–126) or `?` |
| ClearSms.Gsm7Length | tools/clear-sms.py:63-68 | the text has `min(num_chars, bits / 7)` characters, none for a non-positive count |
| ClearSms.SeptetBelow128 | tools/clear-sms.py:67-68 | each septet's value is below 128 |
| ClearSms.CollectedIsSlice | tools/clear-sms.py:78 | collecting every other pair of characters gives the prefix of the sender field |
| ClearSms.SwapFromPairs | tools/clear-sms.py:80 | swapping the semi-octets pairs the characters two by two after the leading `+` |
| ClearSms.InternationalDigits | tools/clear-sms.py:75-80 | for a "91" address type the number is `+` followed by the swapped semi-octets |
| ClearSms.InternationalSender | tools/clear-sms.py:73-80 | an international sender decodes to `+` and the swapped digit pairs |
| ClearSms.NationalSender | tools/clear-sms.py:81-82 | any other address type returns the field after the type octet unchanged |
| ClearSms.EvenSenderExample | tools/clear-sms.py:75-80 | the sender field "0491" "2143" decodes to "+1234" |
| ClearSms.OddSenderExample | tools/clear-sms.py:75-80 | with an odd digit count the filler semi-octet is kept out and the last digit is dropped: "0391" "21F3" decodes to "+12" |
| ClearSms.MsbFirstExample | tools/clear-sms.py:59-69 | the byte C8 decoded as one character gives "d", septets being read MSB first |
| ClearSms.HeaderIndexOf | tools/clear-sms.py:110 | the index of a `+CMGL:` header is the field before its first comma |
| ClearSms.ParseLinesHeader | tools/clear-sms.py:107-122 | a header line pairs with the next line's decoded text, and the rest is parsed after it |
| ClearSms.ParseLinesSkip | tools/clear-sms.py:107-124 | a line that is not a header is skipped |
| ClearSms.ReadAllMessages | tools/clear-sms.py:85-129 | returns nothing unless both responses contain OK; otherwise the parsed listing, or nothing when a line fails to parse |
| ClearSms.ListingInOrder | tools/clear-sms.py:104-125 | a listing of header and PDU line pairs parses to its messages in order |
| ClearSms.NoHeaderNoMessages | tools/clear-sms.py:104-125 | a listing without header lines yields no messages |
| Gateway.LoadConfig | main.py:23-49 | fails for the first section (modems, e-mail, API) holding an entry without a required field; otherwise returns the configuration with missing sections as empty lists |
| Gateway.SmsGateway.constructor | main.py:11-21 | a fresh processor over the configured rules and the stored multipart table, with no handlers |
| Gateway.SmsGateway.Start | main.py:51-73 | every modem, then every e-mail and API provider is registered under its name, whatever each modem's start reports; modem i reports a connection iff it has a `pin` and its link comes up |
| Gateway.SmsGateway.StartModems | main.py:54-59 | every modem is recorded and registered under its name, and the reports of their starts are returned in order |
| Gateway.SmsGateway.StartModem | main.py:54-58 | one modem is recorded and registered under its name; its start reports a connection iff it has a `pin` and its link comes up, and never the missing-key error, since `baudrate` is present |
| Gateway.SmsGateway.StartEmails | main.py:61-66 | all e-mail providers are registered under their names |
| Gateway.SmsGateway.StartApis | main.py:68-73 | all API providers are registered under their names |

## Left out

- Threads, blocking queues, `time.sleep` (including the 5-second wait for coverage) and daemon threads: one worker iteration is one method call, and a sleep is the delay it returns.
- gsmmodem, smtplib and requests are not modelled. Their results are parameters: link up, login accepted, send succeeded, coverage and delivery per attempt, and the HTTP response.
- SQLite storage. `database.py` is not part of this model. The stored messages are the processor's `saved` sequence, and the multipart rows the database file holds from earlier runs are the `stored` table the constructors take.
- The `processed` column and the table's row ids are left out. Rows are marked processed and deleted in the same call.
- Multipart timestamps are seconds. The source compares ISO text with SQLite's `datetime('now', '-30 minutes')` as strings, which the model does not capture.
- `str.format`: format specifications, positional fields, doubled braces and the KeyError of an unknown placeholder are not modelled. Only the three named placeholders are substituted.
- Regular expressions are not modelled; the model states their intended patterns. This leaves out `$` matching before a trailing newline and `\d` matching non-ASCII digits.
- Unicode case mapping and whitespace: `lower`, `upper` and `strip` are modelled on ASCII only. `strip` removes the ASCII characters `str.isspace` accepts (including 0x1C–0x1F), and `bytes.fromhex` skips C's six whitespace characters.
- JSON values of the wrong type are not modelled. This covers a string where a list is expected, a nested list as the rule message (sms_processor.py:141), and non-string names.
- `int(x, 16)`: signs, surrounding whitespace, underscores and the `0x` prefix are not accepted by the model.
- Serial I/O of the PDU tool is not modelled: `initialize_modem`, `read_full_response`, `delete_all_messages` and its `main`. Their responses are parameters.
- `close`, `shutdown` and `join` of the handlers, `run`, `config.py`, `tools/test-modem.py`, logging and the log level are not modelled.
- Processor.SmsProcessor.HandleMultipart: the source rewrites the `sms` object's text in place, which callers could observe through aliasing. The model returns a new value.
- Processor.SmsProcessor.ProcessSms: the IndexError that ends the incoming thread is only the `aborted` flag; the thread's death is not modelled.
- Email.EmailHandler and Api.ApiHandler `start` only launch a worker thread, so they have no counterpart here.

## Findings

| source | as written | input that shows it | evidently intended | confidence | as-written member | corrected member |
|---|---|---|---|---|---|---|
| sms_processor.py:99-106 | `cleanup_old_multipart` (lines 185-188) opens a second connection and deletes while the first connection's INSERT still holds the write lock; the DELETE raises "database is locked", the INSERT is rolled back, and the error leaves `process_sms` and ends the incoming thread | a table holding a row older than 30 minutes, then a new fragment that does not complete its group | the fragment is stored and the stale rows are deleted | not executed; depends on sqlite3's implicit transaction and its lock timeout | Multipart.StaleRowBlocksStore | Multipart.IncompleteIsStored |
