/**
 * The SQS consumer: a loop that checks for cancellation, asks SQS for up to ten messages,
 * decodes each message body into an event record, reports decoding errors, and hands every
 * decoded record to the event handler. The loop has no exit of its own other than
 * cancellation, a receive error or the decoder halting the process.
 *
 * Everything the loop does to the outside world is recorded, in order, as a log of effects;
 * what the outside world answers (whether the context is done, what ReceiveMessage returns)
 * is given as a script of ticks, one tick per turn of the loop.
 */
module Consumer {
  import opened Wrappers
  import opened JsonValues
  import opened Coercion
  import opened AwsEvents
  import opened EventDecoder

  /** Seconds a received message stays hidden from other consumers. */
  const VisibilityTimeoutSeconds := 10
  /** Seconds each ReceiveMessage call long-polls for. */
  const WaitTimeSeconds := 10
  /** Most messages one ReceiveMessage call returns. */
  const MaxNumberOfMessages := 10
  /** The message attributes each request asks for. */
  const AttributeNames: seq<string> :=
    ["QueueAttributeName", "SentTimestamp", "ApproximateReceiveCount", "ApproximateFirstReceiveTimestamp"]

  datatype ReceiveRequest = ReceiveRequest(
    queueUrl: string,
    attributeNames: seq<string>,
    visibilityTimeout: int,
    waitTimeSeconds: int,
    maxNumberOfMessages: int)

  /** The request built on every turn of the loop. */
  function RequestFor(queueUrl: string): (r: ReceiveRequest)
    ensures r.queueUrl == queueUrl && r.attributeNames == AttributeNames
    ensures r.visibilityTimeout == 10 && r.waitTimeSeconds == 10 && r.maxNumberOfMessages == 10
  {
    ReceiveRequest(queueUrl, AttributeNames, VisibilityTimeoutSeconds, WaitTimeSeconds, MaxNumberOfMessages)
  }

  /** A message body, as the JSON decoder reads its first value. */
  datatype Body = Parsed(json: Json) | Unparseable

  datatype Message = Message(body: Body, receiptHandle: string)

  /**
   * The map the body is decoded into: the members of a JSON object; for anything else (null,
   * another JSON type, text that is not JSON) the map stays nil, which reads as empty.
   */
  function RawOf(body: Body): (raw: Object)
    ensures body.Parsed? && body.json.JObject? ==> raw == body.json.members
    ensures !(body.Parsed? && body.json.JObject?) ==> raw == map[]
  {
    match body
    case Parsed(JObject(members)) => members
    case _ => map[]
  }

  /** An error from ReceiveMessage; the SDK may wrap the context's cancellation. */
  datatype ReceiveError = ReceiveError(message: string, wrapsCanceled: bool)

  datatype Receipt = Received(messages: seq<Message>) | ReceiveFailed(error: ReceiveError)

  /** One turn of the loop as the outside world decides it. */
  datatype Tick = Tick(cancelled: bool, receipt: Receipt)

  /** What is sent to the error reporter. */
  datatype Report =
    | DecodeReport(errors: set<FieldError>, untypedStructure: Object)
    | ReceiveReport(error: ReceiveError)

  /** One thing the loop does to the outside world. */
  datatype Effect =
    | Requested(request: ReceiveRequest)  // ReceiveMessage was called
    | Notified(report: Report)            // the error reporter was called
    | Handled(event: Event)               // the event handler was called

  /** How the loop ended; Running when the script ran out first. */
  datatype Exit =
    | Running
    | ReturnedNil
    | ReturnedCanceled
    | ReturnedError(error: ReceiveError)
    | ProcessExit(dumped: Object)

  datatype Trace = Trace(effects: seq<Effect>, exit: Exit)

  /** The decoder the loop calls on every message body. */
  type Decoder = Object -> Decoding

  /**
   * What one message leads to when the decoder returns: the error report (when decoding
   * reported errors), then the handler call, which happens whether or not there were errors.
   */
  function MessageEffects(raw: Object, d: Decoding): (es: seq<Effect>)
    requires d.Decoded?
    ensures |es| >= 1 && es[|es| - 1] == Handled(d.event)
    ensures d.errors != {} <==> |es| == 2
    ensures |es| == 2 ==> es[0] == Notified(DecodeReport(d.errors, raw))
  {
    (if d.errors == {} then [] else [Notified(DecodeReport(d.errors, raw))]) + [Handled(d.event)]
  }

  /** The result of handling a batch: the effects, and the map dumped if the decoder halted. */
  datatype BatchResult = BatchResult(effects: seq<Effect>, halted: Option<Object>)

  /** Handling the messages of one batch in order; the first halting message ends everything. */
  function Batch(decode: Decoder, msgs: seq<Message>): (r: BatchResult)
    ensures |r.effects| <= 2 * |msgs|
    ensures r.halted.None? ==> |msgs| <= |r.effects|
  {
    if msgs == [] then BatchResult([], None)
    else
      var before := Batch(decode, msgs[..|msgs| - 1]);
      if before.halted.Some? then before
      else
        var raw := RawOf(msgs[|msgs| - 1].body);
        var d := decode(raw);
        if d.Halt? then BatchResult(before.effects, Some(d.dumped))
        else BatchResult(before.effects + MessageEffects(raw, d), None)
  }

  /** One turn of the loop, after the trace `t` of a loop still running. */
  function Step(queueUrl: string, decode: Decoder, t: Trace, tick: Tick): (r: Trace)
    ensures t.effects <= r.effects
    ensures tick.cancelled <==> r.effects == t.effects
    ensures !tick.cancelled ==> r.effects[|t.effects|] == Requested(RequestFor(queueUrl))
    ensures r.exit == Running ==> !tick.cancelled && tick.receipt.Received?
    ensures r.exit.ReturnedError? ==>
              |r.effects| > 0 && r.effects[|r.effects| - 1] == Notified(ReceiveReport(r.exit.error))
  {
    if tick.cancelled then Trace(t.effects, ReturnedNil)
    else
      var effects := t.effects + [Requested(RequestFor(queueUrl))];
      match tick.receipt
      case ReceiveFailed(e) =>
        if e.wrapsCanceled then Trace(effects, ReturnedCanceled)
        else Trace(effects + [Notified(ReceiveReport(e))], ReturnedError(e))
      case Received(msgs) =>
        var b := Batch(decode, msgs);
        Trace(effects + b.effects, if b.halted.Some? then ProcessExit(b.halted.value) else Running)
  }

  /** The loop run against a script: turns happen until one of them ends the loop. */
  function Run(queueUrl: string, decode: Decoder, script: seq<Tick>): (r: Trace)
    ensures r.exit == Running ==>
              forall i :: 0 <= i < |script| ==> !script[i].cancelled && script[i].receipt.Received?
  {
    if script == [] then Trace([], Running)
    else
      var t := Run(queueUrl, decode, script[..|script| - 1]);
      if t.exit != Running then t else Step(queueUrl, decode, t, script[|script| - 1])
  }

  /** The consumer of one queue. */
  class SQSConsumer {
    const sqsQueueUrl: string
    /** The package's event decoder. */
    const decode: Decoder

    constructor(queueUrl: string)
      ensures sqsQueueUrl == queueUrl && decode == Decode
    {
      sqsQueueUrl := queueUrl;
      decode := Decode;
    }

    /** The poll loop, run against the outside world's script. */
    method PollLoop(script: seq<Tick>) returns (trace: Trace)
      ensures trace == Run(sqsQueueUrl, decode, script)
    {
      var effects: seq<Effect> := [];
      var i := 0;
      while i < |script|
        invariant 0 <= i <= |script|
        invariant Run(sqsQueueUrl, decode, script[..i]) == Trace(effects, Running)
      {
        var tick := script[i];
        assert script[..i + 1][..i] == script[..i];
        if tick.cancelled {
          RunStops(sqsQueueUrl, decode, script, i + 1);
          return Trace(effects, ReturnedNil);
        }
        effects := effects + [Requested(RequestFor(sqsQueueUrl))];
        match tick.receipt {
          case ReceiveFailed(e) =>
            RunStops(sqsQueueUrl, decode, script, i + 1);
            if e.wrapsCanceled {
              return Trace(effects, ReturnedCanceled);
            }
            effects := effects + [Notified(ReceiveReport(e))];
            return Trace(effects, ReturnedError(e));
          case Received(msgs) =>
            var batch := HandleBatch(msgs);
            effects := effects + batch.effects;
            if batch.halted.Some? {
              RunStops(sqsQueueUrl, decode, script, i + 1);
              return Trace(effects, ProcessExit(batch.halted.value));
            }
        }
        i := i + 1;
      }
      assert script[..i] == script;
      return Trace(effects, Running);
    }

    /** The poll loop's inner loop: the messages of one batch, in order. */
    method HandleBatch(msgs: seq<Message>) returns (batch: BatchResult)
      ensures batch == Batch(decode, msgs)
    {
      var effects: seq<Effect> := [];
      var j := 0;
      while j < |msgs|
        invariant 0 <= j <= |msgs|
        invariant Batch(decode, msgs[..j]) == BatchResult(effects, None)
      {
        assert msgs[..j + 1][..j] == msgs[..j];
        var raw := RawOf(msgs[j].body);
        var d := decode(raw);
        if d.Halt? {
          BatchStops(decode, msgs, j + 1);
          return BatchResult(effects, Some(d.dumped));
        }
        if d.errors != {} {
          effects := effects + [Notified(DecodeReport(d.errors, raw))];
        }
        effects := effects + [Handled(d.event)];
        j := j + 1;
      }
      assert msgs[..j] == msgs;
      return BatchResult(effects, None);
    }
  }

  // ----- Termination of the loop -----

  /** Once the decoder halts, the rest of the batch is never looked at. */
  lemma {:induction false} BatchStops(decode: Decoder, msgs: seq<Message>, k: nat)
    requires k <= |msgs| && Batch(decode, msgs[..k]).halted.Some?
    ensures Batch(decode, msgs) == Batch(decode, msgs[..k])
    decreases |msgs|
  {
    if k < |msgs| {
      var prefix := msgs[..|msgs| - 1];
      assert prefix[..k] == msgs[..k];
      BatchStops(decode, prefix, k);
    } else {
      assert msgs[..k] == msgs;
    }
  }

  /** Once a turn ends the loop, no later tick of the script is looked at. */
  lemma {:induction false} RunStops(queueUrl: string, decode: Decoder, script: seq<Tick>, k: nat)
    requires k <= |script| && Run(queueUrl, decode, script[..k]).exit != Running
    ensures Run(queueUrl, decode, script) == Run(queueUrl, decode, script[..k])
    decreases |script|
  {
    if k < |script| {
      var prefix := script[..|script| - 1];
      assert prefix[..k] == script[..k];
      RunStops(queueUrl, decode, prefix, k);
    } else {
      assert script[..k] == script;
    }
  }

  // ----- What the loop does -----

  /**
   * A context found cancelled at the top of any turn of a running loop: that turn requests
   * nothing and the loop returns nil with the effects of the earlier turns.
   */
  lemma CancelledAtTurn(queueUrl: string, decode: Decoder, script: seq<Tick>, k: nat)
    requires k < |script| && Run(queueUrl, decode, script[..k]).exit == Running && script[k].cancelled
    ensures Run(queueUrl, decode, script[..k + 1]) == Trace(Run(queueUrl, decode, script[..k]).effects, ReturnedNil)
    ensures Run(queueUrl, decode, script) == Run(queueUrl, decode, script[..k + 1])
  {
    assert script[..k + 1][..k] == script[..k];
    RunStops(queueUrl, decode, script, k + 1);
  }

  /** A context already cancelled at the first check: nothing is requested, nil is returned. */
  lemma CancelledAtOnce(queueUrl: string, decode: Decoder, script: seq<Tick>)
    requires script != [] && script[0].cancelled
    ensures Run(queueUrl, decode, script) == Trace([], ReturnedNil)
  {
    assert script[..0] == [];
    CancelledAtTurn(queueUrl, decode, script, 0);
  }

  /** Handling a batch only reports decoding errors and calls the handler. */
  lemma {:induction false} BatchEffectsKinds(decode: Decoder, msgs: seq<Message>)
    ensures forall e :: e in Batch(decode, msgs).effects ==>
              e.Handled? || (e.Notified? && e.report.DecodeReport?)
    decreases |msgs|
  {
    if msgs != [] {
      BatchEffectsKinds(decode, msgs[..|msgs| - 1]);
    }
  }

  /** Every ReceiveMessage call of the loop is made with the same fixed request. */
  lemma {:induction false} RequestsAreFixed(queueUrl: string, decode: Decoder, script: seq<Tick>)
    ensures forall e :: e in Run(queueUrl, decode, script).effects && e.Requested? ==>
              e.request == RequestFor(queueUrl)
    decreases |script|
  {
    if script != [] {
      RequestsAreFixed(queueUrl, decode, script[..|script| - 1]);
      var last := script[|script| - 1];
      if last.receipt.Received? {
        BatchEffectsKinds(decode, last.receipt.messages);
      }
    }
  }

  /** The number of ReceiveMessage calls in a log of effects. */
  function CountRequests(effects: seq<Effect>): nat
  {
    if effects == [] then 0
    else CountRequests(effects[..|effects| - 1]) + (if effects[|effects| - 1].Requested? then 1 else 0)
  }

  lemma {:induction false} CountRequestsAppend(a: seq<Effect>, b: seq<Effect>)
    ensures CountRequests(a + b) == CountRequests(a) + CountRequests(b)
    decreases |b|
  {
    if b != [] {
      assert (a + b)[..|a + b| - 1] == a + b[..|b| - 1];
      CountRequestsAppend(a, b[..|b| - 1]);
    } else {
      assert a + b == a;
    }
  }

  lemma {:induction false} NoRequests(effects: seq<Effect>)
    requires forall e :: e in effects ==> !e.Requested?
    ensures CountRequests(effects) == 0
    decreases |effects|
  {
    if effects != [] {
      assert effects[|effects| - 1] in effects;
      NoRequests(effects[..|effects| - 1]);
    }
  }

  /** The loop calls ReceiveMessage at most once per turn. */
  lemma {:induction false} OneRequestPerTurn(queueUrl: string, decode: Decoder, script: seq<Tick>)
    ensures CountRequests(Run(queueUrl, decode, script).effects) <= |script|
    decreases |script|
  {
    if script != [] {
      var prefix := script[..|script| - 1];
      OneRequestPerTurn(queueUrl, decode, prefix);
      var t := Run(queueUrl, decode, prefix);
      var last := script[|script| - 1];
      if t.exit == Running && !last.cancelled {
        var effects := t.effects + [Requested(RequestFor(queueUrl))];
        CountRequestsAppend(t.effects, [Requested(RequestFor(queueUrl))]);
        assert CountRequests([Requested(RequestFor(queueUrl))]) == 1 by {
          assert [Requested(RequestFor(queueUrl))][..0] == [];
        }
        match last.receipt {
          case ReceiveFailed(e) =>
            if !e.wrapsCanceled {
              CountRequestsAppend(effects, [Notified(ReceiveReport(e))]);
              assert CountRequests([Notified(ReceiveReport(e))]) == 0 by {
                assert [Notified(ReceiveReport(e))][..0] == [];
              }
            }
          case Received(msgs) =>
            BatchEffectsKinds(decode, msgs);
            NoRequests(Batch(decode, msgs).effects);
            CountRequestsAppend(effects, Batch(decode, msgs).effects);
        }
      }
    }
  }

  /**
   * How a receive error shows in a trace: a receive report is only ever the last effect and
   * comes with the ReturnedError exit for an error that does not wrap cancellation; a
   * ReturnedError exit ends with the request and that report; a ReturnedCanceled exit ends
   * with the request, unreported.
   */
  predicate ReceiveErrorsEnd(queueUrl: string, t: Trace)
  {
    && (forall i :: 0 <= i < |t.effects| && t.effects[i].Notified? && t.effects[i].report.ReceiveReport? ==>
          && i == |t.effects| - 1
          && t.exit == ReturnedError(t.effects[i].report.error)
          && !t.effects[i].report.error.wrapsCanceled)
    && (t.exit.ReturnedError? ==>
          |t.effects| >= 2 && t.effects[|t.effects| - 2..] == [Requested(RequestFor(queueUrl)), Notified(ReceiveReport(t.exit.error))])
    && (t.exit == ReturnedCanceled ==>
          t.effects != [] && t.effects[|t.effects| - 1] == Requested(RequestFor(queueUrl)))
  }

  /** No receive error has been reported in these effects. */
  predicate NoReceiveReport(effects: seq<Effect>)
  {
    forall i :: 0 <= i < |effects| && effects[i].Notified? ==> effects[i].report.DecodeReport?
  }

  /** A turn that receives a batch adds a request and the batch's effects, none a receive report. */
  lemma BatchTurnReportsNoReceiveError(queueUrl: string, effects: seq<Effect>, b: seq<Effect>)
    requires NoReceiveReport(effects)
    requires forall e :: e in b ==> e.Handled? || (e.Notified? && e.report.DecodeReport?)
    ensures NoReceiveReport(effects + [Requested(RequestFor(queueUrl))] + b)
  {
    var all := effects + [Requested(RequestFor(queueUrl))] + b;
    forall i | 0 <= i < |all| && all[i].Notified?
      ensures all[i].report.DecodeReport?
    {
      if i < |effects| {
        assert all[i] == effects[i];
      } else if i >= |effects| + 1 {
        assert all[i] == b[i - |effects| - 1];
        assert all[i] in b;
      }
    }
  }

  /** A turn whose receive fails adds the request and, unless cancelled, the one report. */
  lemma FailedTurnEnding(queueUrl: string, effects: seq<Effect>, e: ReceiveError)
    requires NoReceiveReport(effects)
    ensures !e.wrapsCanceled ==>
              ReceiveErrorsEnd(queueUrl, Trace(effects + [Requested(RequestFor(queueUrl))] + [Notified(ReceiveReport(e))], ReturnedError(e)))
    ensures e.wrapsCanceled ==>
              ReceiveErrorsEnd(queueUrl, Trace(effects + [Requested(RequestFor(queueUrl))], ReturnedCanceled))
  {
    var requested := effects + [Requested(RequestFor(queueUrl))];
    if !e.wrapsCanceled {
      var all := requested + [Notified(ReceiveReport(e))];
      forall i | 0 <= i < |requested|
        ensures !(all[i].Notified? && all[i].report.ReceiveReport?)
      {
        assert all[i] == requested[i];
      }
      assert all[|all| - 2..] == [Requested(RequestFor(queueUrl)), Notified(ReceiveReport(e))];
    }
  }

  /** One turn taken by a running loop keeps ReceiveErrorsEnd. */
  lemma StepEnding(queueUrl: string, decode: Decoder, t: Trace, tick: Tick)
    requires t.exit == Running && ReceiveErrorsEnd(queueUrl, t)
    ensures ReceiveErrorsEnd(queueUrl, Step(queueUrl, decode, t, tick))
  {
    assert NoReceiveReport(t.effects);
    if !tick.cancelled {
      match tick.receipt
      case ReceiveFailed(e) =>
        FailedTurnEnding(queueUrl, t.effects, e);
      case Received(msgs) =>
        BatchEffectsKinds(decode, msgs);
        BatchTurnReportsNoReceiveError(queueUrl, t.effects, Batch(decode, msgs).effects);
    }
  }

  /**
   * A receive error ends the loop: an error wrapping the context's cancellation is returned
   * as cancellation without a report; any other is reported once, as the last thing the loop
   * does, and returned.
   */
  lemma {:induction false} ReceiveErrorsEndTheLoop(queueUrl: string, decode: Decoder, script: seq<Tick>)
    ensures ReceiveErrorsEnd(queueUrl, Run(queueUrl, decode, script))
    decreases |script|
  {
    if script != [] {
      var prefix := script[..|script| - 1];
      ReceiveErrorsEndTheLoop(queueUrl, decode, prefix);
      var t := Run(queueUrl, decode, prefix);
      if t.exit == Running {
        StepEnding(queueUrl, decode, t, script[|script| - 1]);
      }
    }
  }

  /**
   * Every decoding report is followed at once by the handler call for the same message:
   * the report carries the decoder's errors for that map, and the record is still handled.
   */
  predicate ReportsPrecedeHandling(decode: Decoder, effects: seq<Effect>)
  {
    forall i :: 0 <= i < |effects| && effects[i].Notified? && effects[i].report.DecodeReport? ==>
      HandledAfterReport(decode, effects, i)
  }

  /** The report at index i carries the decoder's errors for its map, and the record comes next. */
  predicate HandledAfterReport(decode: Decoder, effects: seq<Effect>, i: nat)
    requires i < |effects| && effects[i].Notified? && effects[i].report.DecodeReport?
  {
    var raw := effects[i].report.untypedStructure;
    && decode(raw).Decoded?
    && effects[i].report.errors == decode(raw).errors
    && decode(raw).errors != {}
    && i + 1 < |effects|
    && effects[i + 1] == Handled(decode(raw).event)
  }

  lemma ReportsPrecedeHandlingAppend(decode: Decoder, a: seq<Effect>, b: seq<Effect>)
    requires ReportsPrecedeHandling(decode, a) && ReportsPrecedeHandling(decode, b)
    ensures ReportsPrecedeHandling(decode, a + b)
  {
    forall i | 0 <= i < |a + b| && (a + b)[i].Notified? && (a + b)[i].report.DecodeReport?
      ensures HandledAfterReport(decode, a + b, i)
    {
      if i < |a| {
        assert (a + b)[i] == a[i];
        assert HandledAfterReport(decode, a, i);
        assert (a + b)[i + 1] == a[i + 1];
      } else {
        assert (a + b)[i] == b[i - |a|];
        assert HandledAfterReport(decode, b, i - |a|);
        assert (a + b)[i + 1] == b[i + 1 - |a|];
      }
    }
  }

  lemma {:induction false} BatchReportsPrecedeHandling(decode: Decoder, msgs: seq<Message>)
    ensures ReportsPrecedeHandling(decode, Batch(decode, msgs).effects)
    decreases |msgs|
  {
    if msgs != [] {
      var before := Batch(decode, msgs[..|msgs| - 1]);
      BatchReportsPrecedeHandling(decode, msgs[..|msgs| - 1]);
      var raw := RawOf(msgs[|msgs| - 1].body);
      if before.halted.None? && decode(raw).Decoded? {
        ReportsPrecedeHandlingAppend(decode, before.effects, MessageEffects(raw, decode(raw)));
      }
    }
  }

  /** In the whole run, each decoding report is followed by the handling of its record. */
  lemma {:induction false} RunReportsPrecedeHandling(queueUrl: string, decode: Decoder, script: seq<Tick>)
    ensures ReportsPrecedeHandling(decode, Run(queueUrl, decode, script).effects)
    decreases |script|
  {
    if script != [] {
      var prefix := script[..|script| - 1];
      RunReportsPrecedeHandling(queueUrl, decode, prefix);
      var t := Run(queueUrl, decode, prefix);
      var last := script[|script| - 1];
      if t.exit == Running && !last.cancelled {
        var effects := t.effects + [Requested(RequestFor(queueUrl))];
        ReportsPrecedeHandlingAppend(decode, t.effects, [Requested(RequestFor(queueUrl))]);
        match last.receipt {
          case ReceiveFailed(e) =>
            if !e.wrapsCanceled {
              ReportsPrecedeHandlingAppend(decode, effects, [Notified(ReceiveReport(e))]);
            }
          case Received(msgs) =>
            BatchReportsPrecedeHandling(decode, msgs);
            ReportsPrecedeHandlingAppend(decode, effects, Batch(decode, msgs).effects);
        }
      }
    }
  }

  // ----- A batch, by an independent definition -----

  /** The position of the first message of the batch on which the decoder halts, or its length. */
  function FirstHalt(decode: Decoder, msgs: seq<Message>): (k: nat)
    ensures k <= |msgs|
    ensures forall i :: 0 <= i < k ==> decode(RawOf(msgs[i].body)).Decoded?
    ensures k < |msgs| ==> decode(RawOf(msgs[k].body)).Halt?
  {
    if msgs == [] then 0
    else if decode(RawOf(msgs[0].body)).Halt? then 0
    else 1 + FirstHalt(decode, msgs[1..])
  }

  /** The records handed to the handler, in order, in a log of effects. */
  function HandledEvents(effects: seq<Effect>): seq<Event>
  {
    if effects == [] then []
    else
      var last := effects[|effects| - 1];
      HandledEvents(effects[..|effects| - 1]) + (if last.Handled? then [last.event] else [])
  }

  lemma {:induction false} HandledEventsAppend(a: seq<Effect>, b: seq<Effect>)
    ensures HandledEvents(a + b) == HandledEvents(a) + HandledEvents(b)
    decreases |b|
  {
    if b != [] {
      assert (a + b)[..|a + b| - 1] == a + b[..|b| - 1];
      HandledEventsAppend(a, b[..|b| - 1]);
    } else {
      assert a + b == a;
    }
  }

  /** A message the decoder returns for hands exactly its record to the handler. */
  lemma MessageHandlesItsRecord(raw: Object, d: Decoding)
    requires d.Decoded?
    ensures HandledEvents(MessageEffects(raw, d)) == [d.event]
  {
    var es := MessageEffects(raw, d);
    if |es| == 2 {
      assert es[..1] == [es[0]];
      assert HandledEvents([es[0]]) == [] by {
        assert [es[0]][..0] == [];
      }
      assert HandledEvents(es) == HandledEvents(es[..1]) + [d.event];
    } else {
      assert es[..0] == [];
      assert HandledEvents(es) == HandledEvents(es[..0]) + [d.event];
    }
  }

  /** The records decoded from the first k messages of a batch. */
  function DecodedEvents(decode: Decoder, msgs: seq<Message>, k: nat): (events: seq<Event>)
    requires k <= |msgs| && forall i :: 0 <= i < k ==> decode(RawOf(msgs[i].body)).Decoded?
    ensures |events| == k
  {
    seq(k, i requires 0 <= i < k => decode(RawOf(msgs[i].body)).event)
  }

  /** How the first halting position of a batch moves when one more message is added. */
  lemma FirstHaltExtend(decode: Decoder, msgs: seq<Message>)
    requires msgs != []
    ensures var prefix := msgs[..|msgs| - 1];
            var k0 := FirstHalt(decode, prefix);
            && (k0 < |prefix| ==> FirstHalt(decode, msgs) == k0)
            && (k0 == |prefix| && decode(RawOf(msgs[|msgs| - 1].body)).Halt? ==> FirstHalt(decode, msgs) == k0)
            && (k0 == |prefix| && decode(RawOf(msgs[|msgs| - 1].body)).Decoded? ==> FirstHalt(decode, msgs) == |msgs|)
  {
    var prefix := msgs[..|msgs| - 1];
    assert forall i :: 0 <= i < |prefix| ==> msgs[i] == prefix[i];
  }

  /** Adding a message to a batch does not change the records decoded from its first k. */
  lemma DecodedEventsPrefix(decode: Decoder, msgs: seq<Message>, k: nat)
    requires msgs != [] && k < |msgs|
    requires forall i :: 0 <= i < k ==> decode(RawOf(msgs[i].body)).Decoded?
    ensures DecodedEvents(decode, msgs, k) == DecodedEvents(decode, msgs[..|msgs| - 1], k)
  {
  }

  /** The claim BatchHandlesUpToFirstHalt makes about one batch. */
  predicate HandlesUpToFirstHalt(decode: Decoder, msgs: seq<Message>)
  {
    var k := FirstHalt(decode, msgs);
    && HandledEvents(Batch(decode, msgs).effects) == DecodedEvents(decode, msgs, k)
    && Batch(decode, msgs).halted == (if k < |msgs| then Some(decode(RawOf(msgs[k].body)).dumped) else None)
  }

  /** A batch that already halted before its last message ignores that message. */
  lemma HaltedBatchExtends(decode: Decoder, msgs: seq<Message>)
    requires msgs != [] && HandlesUpToFirstHalt(decode, msgs[..|msgs| - 1])
    requires FirstHalt(decode, msgs[..|msgs| - 1]) < |msgs| - 1
    ensures HandlesUpToFirstHalt(decode, msgs)
  {
    var prefix := msgs[..|msgs| - 1];
    var k0 := FirstHalt(decode, prefix);
    FirstHaltExtend(decode, msgs);
    DecodedEventsPrefix(decode, msgs, k0);
    assert msgs[k0] == prefix[k0];
    assert Batch(decode, msgs) == Batch(decode, prefix);
  }

  /** A batch whose decoder first halts on its last message dumps that message's map. */
  lemma LastMessageHalts(decode: Decoder, msgs: seq<Message>)
    requires msgs != [] && HandlesUpToFirstHalt(decode, msgs[..|msgs| - 1])
    requires FirstHalt(decode, msgs[..|msgs| - 1]) == |msgs| - 1
    requires decode(RawOf(msgs[|msgs| - 1].body)).Halt?
    ensures HandlesUpToFirstHalt(decode, msgs)
  {
    var prefix := msgs[..|msgs| - 1];
    FirstHaltExtend(decode, msgs);
    DecodedEventsPrefix(decode, msgs, |prefix|);
    var raw := RawOf(msgs[|msgs| - 1].body);
    assert Batch(decode, msgs) == BatchResult(Batch(decode, prefix).effects, Some(decode(raw).dumped));
  }

  /** A batch whose decoder decodes every message hands over each record, the last one last. */
  lemma LastMessageHandled(decode: Decoder, msgs: seq<Message>)
    requires msgs != [] && HandlesUpToFirstHalt(decode, msgs[..|msgs| - 1])
    requires FirstHalt(decode, msgs[..|msgs| - 1]) == |msgs| - 1
    requires decode(RawOf(msgs[|msgs| - 1].body)).Decoded?
    ensures HandlesUpToFirstHalt(decode, msgs)
  {
    var prefix := msgs[..|msgs| - 1];
    FirstHaltExtend(decode, msgs);
    var raw := RawOf(msgs[|msgs| - 1].body);
    var es := MessageEffects(raw, decode(raw));
    assert Batch(decode, msgs) == BatchResult(Batch(decode, prefix).effects + es, None);
    HandledEventsAppend(Batch(decode, prefix).effects, es);
    MessageHandlesItsRecord(raw, decode(raw));
    DecodedEventsSnoc(decode, msgs);
  }

  /** When every message decodes, the last record decoded comes after those of the others. */
  lemma DecodedEventsSnoc(decode: Decoder, msgs: seq<Message>)
    requires msgs != [] && forall i :: 0 <= i < |msgs| ==> decode(RawOf(msgs[i].body)).Decoded?
    ensures DecodedEvents(decode, msgs, |msgs|)
         == DecodedEvents(decode, msgs[..|msgs| - 1], |msgs| - 1) + [decode(RawOf(msgs[|msgs| - 1].body)).event]
  {
  }

  /**
   * A batch hands the handler the records of every message before the first one on which
   * the decoder halts, in order; that message's map is the one dumped, and nothing after it
   * is looked at. A batch on which the decoder never halts is handled in full.
   */
  lemma {:induction false} BatchHandlesUpToFirstHalt(decode: Decoder, msgs: seq<Message>)
    ensures var k := FirstHalt(decode, msgs);
            && HandledEvents(Batch(decode, msgs).effects) == DecodedEvents(decode, msgs, k)
            && Batch(decode, msgs).halted == (if k < |msgs| then Some(decode(RawOf(msgs[k].body)).dumped) else None)
    decreases |msgs|
  {
    if msgs != [] {
      var prefix := msgs[..|msgs| - 1];
      BatchHandlesUpToFirstHalt(decode, prefix);
      if FirstHalt(decode, prefix) < |prefix| {
        HaltedBatchExtends(decode, msgs);
      } else if decode(RawOf(msgs[|msgs| - 1].body)).Halt? {
        LastMessageHalts(decode, msgs);
      } else {
        LastMessageHandled(decode, msgs);
      }
    }
    assert HandlesUpToFirstHalt(decode, msgs);
  }

  // ----- With the package's decoder -----

  /**
   * A body that is not a JSON object leaves the map nil, which names no record type, so the
   * decoder halts the process on it.
   */
  lemma MalformedBodyHalts(body: Body)
    requires !(body.Parsed? && body.json.JObject?)
    ensures Decode(RawOf(body)) == Halt(map[])
  {
  }
}
