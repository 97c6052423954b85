# slash-infra event ingestion and EC2 search, modelled in Dafny

This project models the core of slash-infra. That core has two parts.

The first is the ingestion of EventBridge notifications from an SQS queue (package
`awsevents`):
- The SQS consumer's poll loop (`SQSConsumer.PollLoop`) receives batches of up to ten messages. It turns each body into an untyped JSON map and hands the map to the event decoder. It reports decoding errors and passes every decoded record to the event handler.
- The event decoder (`decode`, `decodeMap`) picks one of eleven record types from the map's `detail-type` entry. It then fills that record through mapstructure. That includes the squashed `AWSEvent` envelope, a `Detail` struct, the RFC 3339 time hook and mapstructure's case-insensitive key matching.

The second is the EC2 instance search (package `search`). `EC2Resolver.Search` trims the query and asks every configured EC2 client for instances with that ID. `findEC2InstancesByID` builds one `Result` per instance: metadata, tags, public and private addresses, and two console links.

The modules follow the Go files:

| module | file | models |
|---|---|---|
| `Wrappers`, `JsonValues` | `wrappers.dfy`, `json_values.dfy` | `Option`; JSON values as `encoding/json` produces them into `interface{}` |
| `KeyMatch` | `key_match.dfy` | how mapstructure finds the map entry for a struct field |
| `Rfc3339` | `rfc3339.dfy` | `time.Parse(time.RFC3339, ·)` on its strict path, and a text form of the parsed value that keeps the fraction digits as written |
| `Coercion` | `coercion.dfy` | mapstructure's coercion of JSON values into the Go field types of the records |
| `AwsEvents` | `aws_events.dfy` | the `AWSEvent` envelope and the eleven record types, with a field table for each detail struct |
| `EventDecoder` | `event_decoder.dfy` | `decode` and `decodeMap` |
| `Consumer` | `consumer.dfy` | `SQSConsumer.PollLoop`: a class whose method is proved against the functions `Batch`, `Step` and `Run` |
| `Ec2Search` | `ec2_search.dfy` | `search/ec2.go`: `Result`, the links, `findEC2InstancesByID` and `EC2Resolver.Search`, each method proved against a function |

Effects and inputs are represented as follows:
- **Poll loop.** The outside world is a script of ticks, one per turn. A tick says whether the context is done and what `ReceiveMessage` returned. What the loop does is recorded, in order, as effects: a request sent, a report to the error reporter, or a record given to the handler. The loop's end is an `Exit`.
- **EC2 clients.** A client is a function from the `DescribeInstances` request to the SDK's answer.
- **Logging.** What `Search` logs is returned as a list of messages.

The model follows the code as written in five places. In two of them the code itself hints at another intent; in the other three a caller might expect otherwise:
- A `detail-type` that names no record type (or is missing, or is not a string) makes `decode` dump the map and exit the process. It does not return an error, although the unreachable `return nil, ErrCannotDecodeAWSEvent` after the switch (awsevents/event_decoder.go:89) suggests that one was meant. The model's `Halt` outcome and the consumer's `ProcessExit` exit represent this.
- A record whose fields failed to coerce is still given to the handler, right after the error report. `decode` returns the partly filled record together with the error, and the loop checks `ev != nil` rather than `err`.
- Messages are never deleted from the queue: the delete call after the handler is commented out (awsevents/consumer.go:89-92).
- A body that is not a JSON object leaves the map nil. The decoder then halts on it (`Consumer.MalformedBodyHalts`).
- Detail keys no struct field declares are dropped, not kept: mapstructure ignores them (`EventDecoder.DecodeIgnoresUnknownKey`, `Coercion.UnknownKeyIgnored`).

## Model

| member | source | states |
|---|---|---|
| KeyMatch.Lookup | awsevents/aws_events.go:9-48 | a field whose key is present in the map reads exactly that entry |
| KeyMatch.LookupFinds | awsevents/aws_events.go:9-48 | a field finds an entry exactly when some key equals its key up to ASCII case, and the value read is that of such a key, so the untagged `Version`, `ID`, `Source` and `Resources` find the lower-case wire keys |
| KeyMatch.LookupUpdateOther | awsevents/aws_events.go:9-48 | an entry whose key does not match the field's key up to case never changes what the field reads |
| KeyMatch.LookupByFold | awsevents/aws_events.go:9-48 | when no key matches exactly and exactly one matches up to case, that entry is read |
| KeyMatch.Least | awsevents/event_decoder.go:93-102 | among several case-insensitive matches the one read is the least key; this order stands in for the map iteration order mapstructure draws from (see `KeyMatch.Least` under Left out) |
| KeyMatch.LeastExists | awsevents/event_decoder.go:93-102 | every non-empty set of keys has a least key in lexicographic order |
| KeyMatch.LexLeTotal | awsevents/event_decoder.go:93-102 | the key order compares any two keys |
| KeyMatch.LexLeAntisymmetric | awsevents/event_decoder.go:93-102 | two keys each before the other are equal, so the least key is unique |
| KeyMatch.LexLeTransitive | awsevents/event_decoder.go:93-102 | the key order is transitive |
| Rfc3339.Parse | awsevents/event_decoder.go:95 | the string-to-time hook's parse on the strict RFC 3339 path; whatever it accepts is a valid timestamp (calendar day that exists, clock within range, digit fraction, offset within ±23:59) |
| Rfc3339.ParseFormat | awsevents/event_decoder.go:95 | the time hook parses the RFC 3339 text of every valid timestamp back to that timestamp |
| Rfc3339.FormatParse | awsevents/event_decoder.go:95 | every string the time hook accepts denotes a valid timestamp, and the model's text of that timestamp, fraction digits as written, is exactly that string |
| Rfc3339.ParseAccepts | awsevents/event_decoder.go:95 | a text whose date, clock, fraction and offset each read back as t's parses as t |
| Rfc3339.StampRoundTrip | awsevents/event_decoder.go:95 | the `YYYY-MM-DDThh:mm:ss` prefix of a timestamp's text has the required shape and reads back as its six numbers, whatever follows |
| Rfc3339.StampOfFields | awsevents/event_decoder.go:95 | a well-shaped prefix is the text of the numbers read from it |
| Rfc3339.OffsetRoundTrip | awsevents/event_decoder.go:95 | `Z` and every `±hh:mm` offset with hours ≤ 23 and minutes ≤ 59 parse back to themselves |
| Rfc3339.TailRoundTrip | awsevents/event_decoder.go:95 | after the prefix, the fraction takes exactly its dot and digits, and the offset text is what remains |
| Rfc3339.DigitRunStops | awsevents/event_decoder.go:95 | the fraction's run of digits stops at the first non-digit |
| Rfc3339.DigitRun | awsevents/event_decoder.go:95 | the digit run is all digits and is followed by a non-digit or the end |
| Rfc3339.Num2Pad2 | awsevents/event_decoder.go:95 | two digits read as a number print back as the same two digits |
| Coercion.Coerce | awsevents/event_decoder.go:92-101 | decoding one JSON value into a field keeps the field's Go type, fails exactly on the values that type does not accept (no weak typing; an unparsable time string), and files each error under the field's path |
| Coercion.ZeroOf | awsevents/event_decoder.go:92-101 | a field that receives nothing keeps the zero value of its own Go type |
| Coercion.FieldValue | awsevents/event_decoder.go:92-101 | a field has an error exactly when the entry it finds is not accepted by its type, and its value always has the declared type |
| Coercion.CoerceFields | awsevents/event_decoder.go:92-101 | decoding an object into a struct gives one value per declared field, each of its declared type |
| Coercion.CoerceFieldsSucceeds | awsevents/event_decoder.go:92-101 | a struct decodes without error exactly when every one of its fields does |
| Coercion.UnknownKeyIgnored | awsevents/event_decoder.go:92-101 | a key no field matches, even up to case, changes nothing in the decoded struct or its errors |
| EventDecoder.Decode | awsevents/event_decoder.go:16-90 | decode halts, dumping the map, exactly when `detail-type` names no record type; otherwise it returns a record with a well-formed detail |
| EventDecoder.DecodeOutcome | awsevents/event_decoder.go:16-90 | for a recognised map, the record has the selected type and its envelope echoes the `detail-type` read; for any other map, the outcome is the halt |
| EventDecoder.DecodeRecognised | awsevents/event_decoder.go:16-83 | a recognised map is decoded by decodeMap into the record type its `detail-type` selects |
| EventDecoder.DecodeSelects | awsevents/event_decoder.go:16-83 | a map whose `detail-type` selects a type is decoded into that type |
| EventDecoder.ShapeFor | awsevents/event_decoder.go:17-84 | the switch of decode: a `detail-type` string selects a record type exactly when it is one of the eleven case strings |
| EventDecoder.Discriminator | awsevents/event_decoder.go:17 | the switch reads `raw["detail-type"]` by its exact key: a string found there is the one returned, and nothing is returned when the key is absent or holds no string |
| EventDecoder.ShapeForRecognises | awsevents/event_decoder.go:17-84 | exactly the eleven listed strings select a record type, each the one its case names |
| EventDecoder.DetailTypeOf | awsevents/event_decoder.go:17-84 | every record type has a string that selects it |
| EventDecoder.ShapeForInverse | awsevents/event_decoder.go:17-84 | a string that selects a record type is that type's one selecting string |
| EventDecoder.ShapeForInjective | awsevents/event_decoder.go:17-84 | two different strings never select the same record type |
| EventDecoder.UnsuccessfulCases | awsevents/event_decoder.go:24-29 | "EC2 Instance Terminate Unsuccessful" selects the launch-unsuccessful record, and "EC2 Instance Launch Unsuccessful" is not listed, so it halts |
| EventDecoder.DecodeMap | awsevents/event_decoder.go:92-101 | decodeMap always yields a record of the requested type whose detail has that type's fields |
| EventDecoder.DetailFrom | awsevents/aws_events.go:64-260 | the detail has the declared fields; a missing or null detail gives zero values without error; a non-object detail is one error at the `Detail` path |
| EventDecoder.DecodeDetail | awsevents/aws_events.go:64-260 | the detail read from the map's `Detail` entry has the declared fields of its type |
| EventDecoder.EnvelopeRoundTrip | awsevents/aws_events.go:9-61 | an envelope written to the wire keys with a listed `detail-type` decodes back to the same envelope whatever the detail; the only errors are the detail's |
| EventDecoder.EnvelopeDecodedFromWire | awsevents/aws_events.go:9-48 | a map carrying an envelope's wire entries decodes to that envelope without error |
| EventDecoder.EnvelopeFromLookups | awsevents/aws_events.go:9-48 | when each envelope field finds its wire entry, the envelope decodes exactly and without error |
| EventDecoder.CarriedEnvelopeFound | awsevents/aws_events.go:9-48 | every envelope field finds its entry among the wire keys |
| EventDecoder.UntaggedFieldsFound | awsevents/aws_events.go:11-16 | `Version`, `ID`, `Source` and `Resources` find the lower-case `version`, `id`, `source` and `resources` entries |
| EventDecoder.TaggedFieldsFound | awsevents/aws_events.go:24-40 | the tagged fields find `detail-type`, `account`, `time` and `region` |
| EventDecoder.UntaggedEnvelopeKeys | awsevents/aws_events.go:11-48 | among the wire keys, each untagged field name matches exactly one key, its lower-case form |
| EventDecoder.EnvelopeIdentityFound | awsevents/aws_events.go:11-24 | version, id and detail type are read verbatim |
| EventDecoder.EnvelopeOriginFound | awsevents/aws_events.go:28-40 | source, account and region are read verbatim |
| EventDecoder.EnvelopeTimeFound | awsevents/aws_events.go:37 | the event time is the timestamp `Rfc3339.Parse` reads from its text |
| EventDecoder.EnvelopeResourcesFound | awsevents/aws_events.go:48 | the resources are the array's strings, in order |
| EventDecoder.EnvelopeIgnoresOtherKeys | awsevents/aws_events.go:9-48 | adding a key that matches no envelope field keeps the map recognised and leaves the envelope unchanged |
| EventDecoder.EnvelopeIndependentOfDetail | awsevents/aws_events.go:64-68 | whatever the `detail` entry holds, the envelope decoded is the same |
| EventDecoder.DecodeIgnoresUnknownKey | awsevents/event_decoder.go:92-101 | a key matching neither an envelope field nor `Detail` changes nothing in the outcome |
| AwsEvents.Event.GenericAWSEventInfo | awsevents/aws_events.go:59-61 | every record type gives access to the envelope it embeds; what that envelope holds for a decoded map is stated by `EventDecoder.DecodeOutcome` and `EventDecoder.EnvelopeRoundTrip` |
| EventDecoder.DecodedEnvelope | awsevents/aws_events.go:64-68 | a recognised record's envelope is the squashed envelope decoded from the top-level keys |
| EventDecoder.DiscriminatorUpdateOther | awsevents/event_decoder.go:17 | only the `detail-type` entry decides which record type is chosen |
| EventDecoder.TimeHook | awsevents/event_decoder.go:95 | a time field takes the timestamp `Rfc3339.Parse` reads from any RFC 3339 text; text the parser rejects gives the zero time and a timestamp error |
| EventDecoder.DecodedDetail | awsevents/aws_events.go:64-68 | a record's detail is decoded from the object its `Detail` key finds, and that object's errors are among the record's |
| EventDecoder.DetailEntry | awsevents/aws_events.go:64-260 | a detail field holds the coercion of the entry its key finds, and that coercion's errors are reported |
| EventDecoder.StringFieldVerbatim | awsevents/aws_events.go:70-92 | a string field holds the JSON string verbatim |
| EventDecoder.SourceAddressIndex | awsevents/aws_events.go:82 | `SourceIPAddress` is a plain string field of both CloudTrail details, so IP-looking text stays text |
| EventDecoder.TimeFieldTakesInstant | awsevents/aws_events.go:73 | a detail time field takes the timestamp `Rfc3339.Parse` reads from any RFC 3339 text |
| EventDecoder.TimeFieldRejectsText | awsevents/aws_events.go:73 | a detail time field given non-RFC 3339 text holds the zero time, and a timestamp error names its path |
| EventDecoder.FreeFormFieldTakesAnyObject | awsevents/aws_events.go:72 | a `map[string]interface{}` field takes any object as it is, and its coercion reports no error |
| EventDecoder.StringMapKeepsStrings | awsevents/aws_events.go:133 | a `map[string]string` field keeps every string entry, and a non-string entry is an error |
| EventDecoder.FlagsAreStrict | awsevents/aws_events.go:103 | a bool field takes only JSON booleans; anything else but null is an error and leaves false |
| EventDecoder.StateChangeExample | awsevents/aws_events.go:164-173 | a state-change message decodes without error to the instance and its state, with the envelope read from the top-level keys |
| EventDecoder.StateChangeDecoded | awsevents/aws_events.go:164-173 | any map carrying the example envelope and detail decodes to the example record |
| EventDecoder.DecodedFromParts | awsevents/event_decoder.go:36-41 | a selected record whose envelope and detail decode without error is returned without error |
| Consumer.RequestFor | awsevents/consumer.go:14-23 | each request names the queue, the four attributes, a 10 s visibility timeout, a 10 s wait and at most 10 messages |
| Consumer.RawOf | awsevents/consumer.go:72-74 | a body holding a JSON object gives that object; any other body leaves the map empty |
| Consumer.MessageEffects | awsevents/consumer.go:76-88 | a decoded message is always handled, last; an error report comes first exactly when decoding reported errors |
| Consumer.Batch | awsevents/consumer.go:71-93 | the messages of one batch handled in order until the first halt; each handled message adds one or two effects, so a batch of n messages that does not halt has between n and 2n effects, and no batch has more than 2n |
| Consumer.Step | awsevents/consumer.go:37-95 | one turn: the earlier effects are kept as a prefix; a done context adds nothing, otherwise the fixed request comes first; the loop keeps running only after a received batch; a returned receive error is the last thing reported |
| Consumer.Run | awsevents/consumer.go:36-96 | the turns of a script until one ends the loop; a loop still running has seen no done context and a received batch at every turn |
| Consumer.SQSConsumer.PollLoop | awsevents/consumer.go:36-96 | the loop's effects and exit are those of `Run` on the same script |
| Consumer.SQSConsumer.HandleBatch | awsevents/consumer.go:71-93 | the batch's effects and halt are those of `Batch` |
| Consumer.SQSConsumer.constructor | awsevents/consumer.go:30-34 | the consumer polls the given queue with the package's decoder |
| Consumer.BatchStops | awsevents/event_decoder.go:84-86 | once the decoder halts, no later message of the batch is looked at |
| Consumer.RunStops | awsevents/consumer.go:36-96 | once the loop has ended, later turns of the script change nothing |
| Consumer.CancelledAtTurn | awsevents/consumer.go:37-45 | a context found done at the top of any turn of a running loop ends it with nil, adding no effect to those of the earlier turns, and later turns change nothing |
| Consumer.CancelledAtOnce | awsevents/consumer.go:38-41 | a context already done ends the loop with nil before any request |
| Consumer.BatchEffectsKinds | awsevents/consumer.go:71-93 | a batch only reports decoding errors and hands records over |
| Consumer.RequestsAreFixed | awsevents/consumer.go:47-58 | every request the loop sends is the same fixed request |
| Consumer.OneRequestPerTurn | awsevents/consumer.go:37-60 | the loop sends at most one request per turn |
| Consumer.CountRequestsAppend | awsevents/consumer.go:37-60 | requests in two logs add up |
| Consumer.ReceiveErrorsEndTheLoop | awsevents/consumer.go:60-69 | a receive error that is not a cancellation is reported once, right after its request, and returned; a wrapped cancellation is returned unreported; nothing follows either |
| Consumer.StepEnding | awsevents/consumer.go:60-69 | one more turn of a running loop keeps receive errors at the end of the log |
| Consumer.FailedTurnEnding | awsevents/consumer.go:60-69 | a failed receive ends the turn with its request and, unless a cancellation, its report |
| Consumer.BatchTurnReportsNoReceiveError | awsevents/consumer.go:71-93 | a turn that receives a batch reports no receive error |
| Consumer.RunReportsPrecedeHandling | awsevents/consumer.go:76-88 | every decoding report carries the decoder's errors and map, and is followed at once by the handler call for the same message |
| Consumer.BatchReportsPrecedeHandling | awsevents/consumer.go:76-88 | the same holds within one batch |
| Consumer.ReportsPrecedeHandlingAppend | awsevents/consumer.go:71-93 | the property survives appending one log to another |
| Consumer.BatchHandlesUpToFirstHalt | awsevents/consumer.go:71-93 | a batch hands over, in order, the records of all messages before the first one the decoder halts on, and dumps that message's map; with no halt, every record is handed over |
| Consumer.FirstHalt | awsevents/event_decoder.go:84-86 | the first halting position: every message before it decodes, and the decoder halts on it |
| Consumer.HandledEventsAppend | awsevents/consumer.go:86-88 | the records handed over by two logs add up |
| Consumer.MessageHandlesItsRecord | awsevents/consumer.go:86-88 | one message hands over exactly its own record |
| Consumer.MalformedBodyHalts | awsevents/consumer.go:72-76 | a body that is not a JSON object leaves the map nil, and the decoder halts on it |
| Ec2Search.Result.GetMetadata | search/ec2.go:29-36 | a missing key gives ""; a stored key gives its values joined by ", " in order (`Join`, as `strings.Join`): an empty list gives "", one value is given as is, and n values have their total length plus 2(n−1) characters |
| Ec2Search.Result.GetLink | search/ec2.go:38-45 | a missing key gives ""; otherwise the stored URL |
| Ec2Search.JoinPiece | search/ec2.go:35 | each value appears in the joined text at its offset |
| Ec2Search.JoinSeparator | search/ec2.go:35 | the separator follows every value but the last |
| Ec2Search.JoinLength | search/ec2.go:35 | the joined text is as long as the values plus one separator between each pair |
| Ec2Search.ConsoleLink | search/ec2.go:175-177 | the console URL is the fixed text with the region and the search inserted, each recoverable at its position |
| Ec2Search.ConfigTimelineLink | search/ec2.go:179-181 | the timeline URL is the fixed text with the region and the instance ID inserted, each recoverable at its position |
| Ec2Search.LinksIdentifyInstance | search/ec2.go:175-181 | different instances get different links in the same region |
| Ec2Search.LinksDiffer | search/ec2.go:175-181 | a console link is never a timeline link |
| Ec2Search.TrimSpace | search/ec2.go:72 | the trimmed query neither starts nor ends with white space, and it is the input with only white space removed on both sides |
| Ec2Search.TrimSpaceIdempotent | search/ec2.go:72 | trimming twice is trimming once |
| Ec2Search.LeadingSpaces | search/ec2.go:72 | the leading run is all white space and stops at a non-space |
| Ec2Search.TrailingSpaces | search/ec2.go:72 | the trailing run is all white space and stops at a non-space |
| Ec2Search.RuneLen | search/ec2.go:103 | each character takes 1 to 4 UTF-8 bytes, one exactly when ASCII |
| Ec2Search.Utf8LengthBounds | search/ec2.go:103 | a query's byte length is between its character count and four times it, and equals it exactly for ASCII text |
| Ec2Search.InstanceIdQueryShape | search/ec2.go:97-105 | an accepted query has at most 19 characters; an ASCII query is accepted exactly when it is `i-` and 17 more characters |
| Ec2Search.AddressesInOrder | search/ec2.go:139-143 | an interface's private addresses are all kept, in order |
| Ec2Search.PublicIpsMembership | search/ec2.go:128-145 | an address is among the public IPs exactly when some present interface has an association with that address |
| Ec2Search.PrivateIpsMembership | search/ec2.go:128-145 | an address is among the private IPs exactly when some present interface lists it |
| Ec2Search.PrivateIpsOfMembership | search/ec2.go:139-143 | an address is among one interface's private IPs exactly when it lists it |
| Ec2Search.PublicIpsAppend | search/ec2.go:130-144 | public IPs of consecutive interfaces add up in order |
| Ec2Search.PrivateIpsAppend | search/ec2.go:130-144 | private IPs of consecutive interfaces add up in order |
| Ec2Search.TagKey | search/ec2.go:165 | a tag's metadata key is `tag:` followed by the tag key |
| Ec2Search.WithTagsKeys | search/ec2.go:164-166 | tagging adds exactly one key per tag to the metadata keys |
| Ec2Search.LastTagWins | search/ec2.go:164-166 | of several tags with one key, the last one's value is kept |
| Ec2Search.UntaggedKeyKept | search/ec2.go:164-166 | a key that no tag writes keeps its entry |
| Ec2Search.BaseEntriesSurviveTags | search/ec2.go:147-166 | no tag overwrites the seven base metadata entries |
| Ec2Search.InstanceResult | search/ec2.go:147-166 | the result an instance becomes has kind `ec2.instance` and exactly the two links; its metadata is stated by `Ec2Search.InstanceSummary` |
| Ec2Search.InstanceSummary | search/ec2.go:147-166 | an instance's result has kind `ec2.instance`, each base metadata key gives the instance's own field, the IP keys give the addresses joined, and the two links point at the instance in us-east-1 |
| Ec2Search.ResultsOfInOrder | search/ec2.go:124-169 | one result per instance, in order |
| Ec2Search.ResultsInOrder | search/ec2.go:123-170 | one result per instance of every reservation, in order |
| Ec2Search.FindSkipsOtherQueries | search/ec2.go:97-105 | a query without the `i-` prefix or not 19 bytes long returns nothing and calls no client |
| Ec2Search.Find | search/ec2.go:96-173 | findEC2InstancesByID as a function: never both a result set and an error, either of them only for a query that passes the ID guard, and a result set has kind `ec2.instance` and no search link |
| Ec2Search.FindOutcome | search/ec2.go:96-173 | an accepted query filters on `instance-id`; a failure returns only the error; a success returns a result set of kind `ec2.instance` with one result per instance, in order |
| Ec2Search.CollectAddresses | search/ec2.go:125-145 | the loop's public and private address lists are those of the specification functions |
| Ec2Search.BuildResult | search/ec2.go:147-166 | the loop-built result is the instance's result |
| Ec2Search.FlattenInstances | search/ec2.go:124-169 | the loop's results are those of the reservation's instances, in order |
| Ec2Search.FlattenReservations | search/ec2.go:121-170 | the loop's results are those of all reservations, in order |
| Ec2Search.FindEC2InstancesByID | search/ec2.go:96-173 | the method returns the result set and error of `Find` |
| Ec2Search.Collect | search/ec2.go:78-91 | the searcher tried against each client: at most one result set or log line per client, every result set of kind `ec2.instance`, and nothing at all for a query that is not an instance ID |
| Ec2Search.SearchSpec | search/ec2.go:69-94 | Search on the trimmed query: at most one result set or log line per client, and nothing when the trimmed query is not an instance ID |
| Ec2Search.CollectAppend | search/ec2.go:79-90 | results and log lines of two client lists add up in order |
| Ec2Search.CollectCounts | search/ec2.go:78-91 | for an instance-ID query each client gives exactly one result set or one log line; for any other query, nothing; every result set has kind `ec2.instance` |
| Ec2Search.SearchIgnoresSurroundingSpace | search/ec2.go:72 | a query and its trimmed form give the same results and log lines |
| Ec2Search.EC2Resolver.Search | search/ec2.go:69-94 | the results and log lines are those of the specification on the trimmed query |
| Ec2Search.EC2Resolver.constructor | search/ec2.go:65-67 | the resolver holds the given clients |

## Left out

- Parsing JSON text: the message body is given already parsed (`Body`), or marked as not JSON. No field of the records is numeric, but numbers do reach the records: they pass unchanged, inside the object, into the `map[string]interface{}` fields (the CloudTrail `UserIdentity`, `RequestParameters`, `ResponseElements` and `ServiceEventDetails`). A `JNumber` stands for the float64 that encoding/json produced; the rounding of the JSON text to a float64 is left out with the parsing.
- `KeyMatch.Least`: mapstructure chooses among several keys that match up to case in the map's random iteration order. The model always reads the least key.
- `KeyMatch.EqualFold` folds ASCII letters only. Go's `strings.EqualFold` also applies Unicode simple folding, so a JSON map key that folds onto an ASCII field key through a non-ASCII letter ("ſource" with U+017F LONG S for `source`, or the Kelvin sign U+212A for `k`) is matched by mapstructure but not by the model.
- `Rfc3339.DateTime` keeps the fraction digits verbatim as text. Go's `time.Time` keeps whole nanoseconds, truncating digits past the ninth, so the model tells apart texts that Go maps to one value (`.5` and `.500`, or two texts that differ only after the ninth digit). Likewise the offsets `-00:00` and `+00:00` are two values in the model (`Numeric(true, 0, 0)` and `Numeric(false, 0, 0)`), where Go's parser negates a zero offset to zero and gives the same `time.Time` for both. Go's `time.Format(time.RFC3339)` writes no fraction at all; the model's `Rfc3339.Format` is the text form the model round-trips, not Go's formatter.
- `Rfc3339.Parse`: only the strict path of `time.Parse(time.RFC3339, ·)` is modelled. Text that this path rejects but Go's slower general parser accepts is modelled as rejected. Leap seconds (second 60) are rejected, as Go does.
- The IP-address hook: no field of the records is `net.IP`, so it never changes a value. It has no counterpart.
- Process exit: `spew.Dump` and `os.Exit(1)` are represented by the `Halt` outcome and the `ProcessExit` exit, which carry the dumped map. Printing is not modelled.
- Error text and order: mapstructure's aggregated error is a set of field errors with their paths. Its message text is not modelled.
- The error reporter (`bugsnag.Notify`) and `log.Print` are recorded as effects or returned log lines. Their metadata layout is not modelled. In `findEC2InstancesByID` the bugsnag call is represented only by the returned error.
- The SQS and EC2 SDKs: `ReceiveMessage` answers come from the script, and `DescribeInstances` is a function of the request. Network failure, retries and the SDK's wrapping of errors are not modelled, except whether a receive error wraps `context.Canceled`.
- `Consumer.SQSConsumer.PollLoop`: the Go loop runs until it returns. The model runs a finite script, and a script that runs out leaves the exit `Running`.
- Message deletion is not modelled, because the code never deletes (its delete call is commented out).
- The handler's and the decoder's own behaviour beyond its result are not modelled. The handler is observed only through the records it receives.
- The `context.Context` passed to the SDK calls is not modelled. Only the done check at the top of each poll turn is modelled.
- Nil SDK fields: the Go code reads `Association.PublicIp`, `State.Name`, `Placement.AvailabilityZone` and similar SDK fields without nil checks, and would panic on a nil one. The model's instance fields are plain values, so that panic is not modelled. A nil network interface is modelled and skipped, as in the code.
- `NewEC2Resolver` builds one SDK client per credential set. Credentials and sessions are not modelled; `EC2Resolver.constructor` takes the clients.
- The searcher list in `Search` holds only `findEC2InstancesByID`. The model calls it directly.
- Strings are sequences of Unicode code points. `len(search)` is modelled as the UTF-8 byte length of those code points. A query that is not valid UTF-8 is not modelled.
- The rest of the repository is not part of this model: Slack responses, the HTTP and bot commands, AWS credential loading and the debug command.
