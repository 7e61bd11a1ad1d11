/** The generated action handler (server.go, assignHandler): assembling
    the argument list from the request, calling the method through
    reflection, and normalising its results into a response. */
module Dispatch {
  import opened Common
  import opened Payload
  import opened Signature
  import opened Response
  import opened GoStrings

  /** A struct value as decoding sees it: the fields that hold something
      other than their zero value. */
  type Record = map<string, string>

  /** What gin's binder does with one request: it decodes the fields the
      request carries, or fails with an error. */
  datatype Decoding = Decoded(fields: Record) | DecodeFailed(err: Error)

  /** Decoding onto an existing object: the fields the request carries
      are overwritten, every other field keeps what it held. */
  function DecodeInto(target: Record, fields: Record): (r: Record)
    ensures r.Keys == target.Keys + fields.Keys
    ensures forall k :: k in fields ==> r[k] == fields[k]
    ensures forall k :: k in target && k !in fields ==> r[k] == target[k]
  {
    target + fields
  }

  /** A reflect.Value in the argument list: the receiver, the request's
      header, a decoded record (the pointer itself or the struct it points
      at), or the zero Value a slot that was never written holds. */
  datatype Arg =
    | Receiver
    | HeaderArg(header: Header)
    | RecordArg(record: Record, typ: GoType, byPointer: bool)
    | ZeroValue

  const StatusBadRequest: int := 400

  /** The argument list, a 400 refusal with its body, or the index out of
      range that a slot past the end of the list causes. */
  datatype Assembly = Assembled(args: seq<Arg>) | Rejected(body: JsonBody) | IndexPanic

  /** An assembly together with the handler's query and body objects
      after it. */
  datatype Step = Step(outcome: Assembly, query: Record, body: Record)

  /** paramsLen: the receiver plus one per slot present. */
  function ParamsLen(s: Slots): nat
  {
    1 + PresentSlots(s)
  }

  /** What position i of the argument list holds once every write is
      done: the writes go receiver, header, query, body, so a later one
      wins. */
  function ArgAt(s: Slots, h: Header, q: Record, b: Record, i: int): Arg
  {
    if s.body.Some? && s.body.value.index == i then RecordArg(b, s.body.value.record, s.body.value.byPointer)
    else if s.query.Some? && s.query.value.index == i then RecordArg(q, s.query.value.record, s.query.value.byPointer)
    else if s.header.Some? && s.header.value == i then HeaderArg(h)
    else if i == 0 then Receiver
    else ZeroValue
  }

  /** The argument assembly of assignHandler, step by step: the header
      is written, the query is decoded and written, the body is decoded
      and written; a failed decoding refuses the request with 400 (an
      empty object for the query, the error's text under "errMsg" for the
      body), and a slot index past the end of the list panics. */
  function AssembleSpec(s: Slots, q0: Record, b0: Record, h: Header, qd: Decoding, bd: Decoding): Step
  {
    if s.header.Some? && s.header.value >= ParamsLen(s) then Step(IndexPanic, q0, b0)
    else QueryStage(s, q0, b0, h, qd, bd)
  }

  /** From the query on, once the header is in place. */
  function QueryStage(s: Slots, q0: Record, b0: Record, h: Header, qd: Decoding, bd: Decoding): Step
  {
    if s.query.None? then BodyStage(s, q0, b0, h, bd)
    else if qd.DecodeFailed? then Step(Rejected(JsonBody(None, None)), q0, b0)
    else
      var q1 := DecodeInto(q0, qd.fields);
      if s.query.value.index >= ParamsLen(s) then Step(IndexPanic, q1, b0)
      else BodyStage(s, q1, b0, h, bd)
  }

  /** From the body on, once the header and the query are in place. */
  function BodyStage(s: Slots, q1: Record, b0: Record, h: Header, bd: Decoding): Step
  {
    if s.body.None? then Step(Assembled(seq(ParamsLen(s), i => ArgAt(s, h, q1, b0, i))), q1, b0)
    else if bd.DecodeFailed? then Step(Rejected(JsonBody(None, Some(bd.err.Text()))), q1, b0)
    else
      var b1 := DecodeInto(b0, bd.fields);
      if s.body.value.index >= ParamsLen(s) then Step(IndexPanic, q1, b1)
      else Step(Assembled(seq(ParamsLen(s), i => ArgAt(s, h, q1, b1, i))), q1, b1)
  }

  /** Every slot present points inside the argument list. */
  predicate IndicesFit(s: Slots)
  {
    (s.header.Some? ==> s.header.value < ParamsLen(s)) &&
    (s.query.Some? ==> s.query.value.index < ParamsLen(s)) &&
    (s.body.Some? ==> s.body.value.index < ParamsLen(s))
  }

  /** The handler's query object after a request that decodes. */
  function QueryAfter(s: Slots, q0: Record, qd: Decoding): Record
  {
    if s.query.Some? && qd.Decoded? then DecodeInto(q0, qd.fields) else q0
  }

  /** The handler's body object after a request that decodes. */
  function BodyAfter(s: Slots, b0: Record, bd: Decoding): Record
  {
    if s.body.Some? && bd.Decoded? then DecodeInto(b0, bd.fields) else b0
  }

  /** The assembly reaches the call exactly when every slot points inside
      the list and every slot that is decoded decodes; the list then holds
      at each position what the last write there put. */
  lemma AssembledForm(s: Slots, q0: Record, b0: Record, h: Header, qd: Decoding, bd: Decoding)
    ensures AssembleSpec(s, q0, b0, h, qd, bd).outcome.Assembled? <==>
              IndicesFit(s) && (s.query.Some? ==> qd.Decoded?) && (s.body.Some? ==> bd.Decoded?)
    ensures AssembleSpec(s, q0, b0, h, qd, bd).outcome.Assembled? ==>
              AssembleSpec(s, q0, b0, h, qd, bd).outcome ==
                Assembled(seq(ParamsLen(s), i => ArgAt(s, h, QueryAfter(s, q0, qd), BodyAfter(s, b0, bd), i)))
  {
    var q1, b1 := QueryAfter(s, q0, qd), BodyAfter(s, b0, bd);
    if s.header.None? || s.header.value < ParamsLen(s) {
      assert AssembleSpec(s, q0, b0, h, qd, bd) == QueryStage(s, q0, b0, h, qd, bd);
      if s.query.None? || (qd.Decoded? && s.query.value.index < ParamsLen(s)) {
        assert QueryStage(s, q0, b0, h, qd, bd) == BodyStage(s, q1, b0, h, bd);
        BodyStageForm(s, q1, b0, h, bd);
      }
    }
  }

  lemma BodyStageForm(s: Slots, q1: Record, b0: Record, h: Header, bd: Decoding)
    ensures BodyStage(s, q1, b0, h, bd).outcome.Assembled? <==>
              (s.body.Some? ==> bd.Decoded? && s.body.value.index < ParamsLen(s))
    ensures BodyStage(s, q1, b0, h, bd).outcome.Assembled? ==>
              BodyStage(s, q1, b0, h, bd).outcome ==
                Assembled(seq(ParamsLen(s), i => ArgAt(s, h, q1, BodyAfter(s, b0, bd), i)))
  {
  }

  /** Whether reflect lets a value through as an input of type t. */
  predicate ArgFits(a: Arg, t: GoType)
  {
    match a
    case HeaderArg(_) => t == HttpHeaderType
    case RecordArg(_, rt, byPointer) => t == (if byPointer then Ptr(rt) else rt)
    case _ => false
  }

  /** reflect.Value.Call panics unless there is one argument per input,
      the receiver first, each assignable to its input's type. */
  predicate CallAccepts(ins: seq<GoType>, args: seq<Arg>)
  {
    |args| == |ins| && |ins| >= 1 && args[0] == Receiver &&
    forall i :: 1 <= i < |ins| ==> ArgFits(args[i], ins[i])
  }

  /** The method's last result as the type assertion to payload.Response
      and the getters see it: a response, or a value for which they panic
      (nil, a value of some other interface, or a nil *DefaultResponse,
      whose getters dereference it). */
  datatype ResponseValue = NotAResponse | Responds(resp: DefaultResponse)

  /** What the method returns: its first result, which only matters when
      there are two, and its last one. */
  datatype Results = Results(first: ResultValue, last: ResponseValue)

  /** Which of SuccessResponseFunc and ErrResponseFunc are configured. */
  datatype Hooks = Hooks(success: bool, error: bool)

  /** Why a request panics: an argument index past the end of inParams,
      an argument list reflect refuses, a last result that is no
      response, or a status net/http refuses. */
  datatype PanicReason = IndexOutOfRange | ArgumentMismatch | ResponseMissing | StatusOutOfRange

  /** Panics are recovered and logged, and nothing more is written. */
  datatype Outcome = Refused | Panicked(reason: PanicReason) | Invoked(args: seq<Arg>)

  datatype Served = Served(outcome: Outcome, written: Written, query: Record, body: Record)

  /** The data handed to the response writers: nil with one result, the
      first result with two. A nil pointer is still a non-nil interface
      value, so with two results there always is data. */
  function DataOf(outCount: nat, ret: Results): (data: Option<ResultValue>)
    ensures data.None? <==> outCount == 1
    ensures data.Some? ==> data.value == ret.first
  {
    if outCount == 1 then None else Some(ret.first)
  }

  /** The result normalisation: a configured hook takes over, otherwise
      the default writer for success or error runs. */
  function ReplyWrites(w: Written, hooks: Hooks, resp: DefaultResponse, data: Option<ResultValue>): Written
  {
    if resp.GetErr().None? then
      if hooks.success then w.(delegated := Some(HookCall(SuccessHook, resp, data)))
      else SuccessWrites(w, resp, data)
    else if hooks.error then w.(delegated := Some(HookCall(ErrorHook, resp, data)))
    else ErrorWrites(w, resp, data)
  }

  /** Whether the result normalisation panics: a default writer runs and
      the response's status is one net/http refuses. */
  predicate ReplyPanics(w: Written, hooks: Hooks, resp: DefaultResponse)
  {
    (if resp.GetErr().None? then !hooks.success else !hooks.error) && StatusPanics(w, resp.GetCode())
  }

  /** One request through an action handler. */
  function ServeSpec(d: Descriptor, q0: Record, b0: Record, w0: Written, hooks: Hooks, h: Header,
                     qd: Decoding, bd: Decoding, invoke: seq<Arg> -> Results): Served
  {
    var st := AssembleSpec(d.slots, q0, b0, h, qd, bd);
    match st.outcome
    case IndexPanic => Served(Panicked(IndexOutOfRange), w0, st.query, st.body)
    case Rejected(jb) =>
      // gin's binder answers first (AbortWithError(400, err)), then the
      // handler aborts and renders its own 400 body.
      Served(Refused, JsonWrite(AbortWrite(w0, StatusBadRequest).(aborted := true), StatusBadRequest, jb), st.query, st.body)
    case Assembled(args) =>
      if !CallAccepts(d.ins, args) then Served(Panicked(ArgumentMismatch), w0, st.query, st.body)
      else
        var ret := invoke(args);
        match ret.last
        case NotAResponse => Served(Panicked(ResponseMissing), w0, st.query, st.body)
        case Responds(resp) =>
          Served(if ReplyPanics(w0, hooks, resp) then Panicked(StatusOutOfRange) else Invoked(args),
                 ReplyWrites(w0, hooks, resp, DataOf(d.outCount, ret)), st.query, st.body)
  }

  /** The handler assignHandler returns for one descriptor. Its query and
      body objects are made once, when the method is bound, and every
      request decodes onto the same ones. */
  class Handler {
    const descriptor: Descriptor
    var query: Record
    var body: Record

    constructor (descriptor: Descriptor)
      ensures this.descriptor == descriptor && query == map[] && body == map[]
    {
      this.descriptor := descriptor;
      query, body := map[], map[];
    }

    method AssembleArgs(reqHeader: Header, qd: Decoding, bd: Decoding) returns (a: Assembly)
      modifies this
      ensures var st := AssembleSpec(descriptor.slots, old(query), old(body), reqHeader, qd, bd);
              a == st.outcome && query == st.query && body == st.body
    {
      var s := descriptor.slots;
      var paramsLen := 1;
      if s.header.Some? {
        paramsLen := paramsLen + 1;
      }
      if s.query.Some? {
        paramsLen := paramsLen + 1;
      }
      if s.body.Some? {
        paramsLen := paramsLen + 1;
      }
      var inParams := new Arg[paramsLen](_ => ZeroValue);
      inParams[0] := Receiver;
      if s.header.Some? {
        if s.header.value >= paramsLen {
          return IndexPanic;
        }
        inParams[s.header.value] := HeaderArg(reqHeader);
      }
      a := BindQueryArg(inParams, reqHeader, qd, bd);
    }

    /** The query part of the assembly, on an argument list that holds
        the receiver and the header. */
    method BindQueryArg(inParams: array<Arg>, reqHeader: Header, qd: Decoding, bd: Decoding) returns (a: Assembly)
      requires inParams.Length == ParamsLen(descriptor.slots)
      requires forall i :: 0 <= i < inParams.Length ==>
                 inParams[i] == ArgAt(Slots(descriptor.slots.header, None, None), reqHeader, query, body, i)
      modifies this, inParams
      ensures var st := QueryStage(descriptor.slots, old(query), old(body), reqHeader, qd, bd);
              a == st.outcome && query == st.query && body == st.body
    {
      var s := descriptor.slots;
      if s.query.Some? {
        if qd.DecodeFailed? {
          return Rejected(JsonBody(None, None));
        }
        query := DecodeInto(query, qd.fields);
        var prm := s.query.value;
        if prm.index >= inParams.Length {
          return IndexPanic;
        }
        inParams[prm.index] := RecordArg(query, prm.record, prm.byPointer);
      }
      a := BindBodyArg(inParams, reqHeader, bd);
    }

    /** The body part of the assembly, on an argument list that holds the
        receiver, the header and the query. */
    method BindBodyArg(inParams: array<Arg>, reqHeader: Header, bd: Decoding) returns (a: Assembly)
      requires inParams.Length == ParamsLen(descriptor.slots)
      requires forall i :: 0 <= i < inParams.Length ==>
                 inParams[i] == ArgAt(Slots(descriptor.slots.header, descriptor.slots.query, None), reqHeader, query, body, i)
      modifies this, inParams
      ensures var st := BodyStage(descriptor.slots, old(query), old(body), reqHeader, bd);
              a == st.outcome && query == st.query && body == st.body
    {
      var s := descriptor.slots;
      if s.body.Some? {
        if bd.DecodeFailed? {
          return Rejected(JsonBody(None, Some(bd.err.Text())));
        }
        body := DecodeInto(body, bd.fields);
        var prm := s.body.value;
        if prm.index >= inParams.Length {
          return IndexPanic;
        }
        inParams[prm.index] := RecordArg(body, prm.record, prm.byPointer);
      }
      ghost var q1, b1 := query, body;
      ghost var expected := seq(inParams.Length, i => ArgAt(s, reqHeader, q1, b1, i));
      assert forall i :: 0 <= i < inParams.Length ==> inParams[i] == expected[i];
      assert inParams[..] == expected;
      a := Assembled(inParams[..]);
    }

    /** The handler function: assemble, call, normalise. The method itself
        is `invoke`; a panic anywhere is recovered without a response. */
    method Serve(ctx: Context, hooks: Hooks, reqHeader: Header, qd: Decoding, bd: Decoding,
                 invoke: seq<Arg> -> Results) returns (o: Outcome)
      modifies this, ctx
      ensures var sv := ServeSpec(descriptor, old(query), old(body), old(ctx.Snapshot()), hooks, reqHeader, qd, bd, invoke);
              o == sv.outcome && ctx.Snapshot() == sv.written && query == sv.query && body == sv.body
    {
      var a := AssembleArgs(reqHeader, qd, bd);
      match a
      case IndexPanic =>
        return Panicked(IndexOutOfRange);
      case Rejected(jb) =>
        // gin's binder has already answered the decoding error itself:
        // MustBindWith calls AbortWithError(400, err).
        var _ := ctx.AbortWithStatus(StatusBadRequest);
        ctx.Abort();
        var _ := ctx.JSON(StatusBadRequest, jb);
        return Refused;
      case Assembled(inParams) =>
        if !CallAccepts(descriptor.ins, inParams) {
          return Panicked(ArgumentMismatch);
        }
        var ret := invoke(inParams);
        var result := if descriptor.outCount == 1 then None else Some(ret.first);
        if ret.last.NotAResponse? {
          return Panicked(ResponseMissing);
        }
        var panics := Reply(ctx, hooks, ret.last.resp, result);
        return if panics then Panicked(StatusOutOfRange) else Invoked(inParams);
    }
  }

  /** The result normalisation at the end of the handler. */
  method Reply(ctx: Context, hooks: Hooks, re: DefaultResponse, result: Option<ResultValue>) returns (panics: bool)
    modifies ctx
    ensures panics == ReplyPanics(old(ctx.Snapshot()), hooks, re)
    ensures ctx.Snapshot() == ReplyWrites(old(ctx.Snapshot()), hooks, re, result)
  {
    if re.GetErr().None? {
      if hooks.success {
        ctx.Delegate(HookCall(SuccessHook, re, result));
        return false;
      }
      panics := DefaultSuccessResponse(ctx, re, result);
      return;
    }
    if hooks.error {
      ctx.Delegate(HookCall(ErrorHook, re, result));
      return false;
    }
    panics := DefaultErrResponse(ctx, re, result);
  }

  // ----- Properties of a request -----

  /** A query that does not decode refuses the request with 400 and an
      empty JSON object before the method is called, and leaves the
      handler's objects as they were. gin's binder has already sent the
      400, so the client gets the header as it was before: the JSON
      content type reaches only the header map. */
  lemma QueryDecodeFailureRefuses(d: Descriptor, q0: Record, b0: Record, w0: Written, hooks: Hooks, h: Header,
                                  qd: Decoding, bd: Decoding, invoke: seq<Arg> -> Results)
    requires d.slots.query.Some? && qd.DecodeFailed?
    requires d.slots.header.None? || d.slots.header.value < ParamsLen(d.slots)
    ensures var sv := ServeSpec(d, q0, b0, w0, hooks, h, qd, bd, invoke);
            sv.outcome == Refused && sv.written.aborted &&
            sv.written.body == Some(JsonBody(None, None)) &&
            (w0.status.None? ==> sv.written.status == Some(StatusBadRequest) && sv.written.sentHeader == Some(w0.header)) &&
            sv.written.header == JsonHeader(w0.header) && sv.written.delegated == w0.delegated &&
            sv.query == q0 && sv.body == b0
  {
  }

  /** A body that does not decode refuses the request with 400 and the
      decoder's error text under "errMsg" before the method is called;
      as for a query, the status and header went out with the binder's
      abort, before the JSON content type was added. */
  lemma BodyDecodeFailureRefuses(d: Descriptor, q0: Record, b0: Record, w0: Written, hooks: Hooks, h: Header,
                                 qd: Decoding, bd: Decoding, invoke: seq<Arg> -> Results)
    requires d.slots.body.Some? && bd.DecodeFailed?
    requires d.slots.header.None? || d.slots.header.value < ParamsLen(d.slots)
    requires d.slots.query.None? || (qd.Decoded? && d.slots.query.value.index < ParamsLen(d.slots))
    ensures var sv := ServeSpec(d, q0, b0, w0, hooks, h, qd, bd, invoke);
            sv.outcome == Refused && sv.written.aborted &&
            sv.written.body == Some(JsonBody(None, Some(bd.err.Text()))) &&
            (w0.status.None? ==> sv.written.status == Some(StatusBadRequest) && sv.written.sentHeader == Some(w0.header)) &&
            sv.written.header == JsonHeader(w0.header) && sv.written.delegated == w0.delegated &&
            sv.body == b0
  {
  }

  /** On slots initInParams produced, an assembled argument list has one
      value per slot plus the receiver, and the receiver comes first. */
  lemma AssembledShape(ins: seq<GoType>, q0: Record, b0: Record, h: Header, qd: Decoding, bd: Decoding)
    requires InParamSlots(ins).Some?
    requires AssembleSpec(InParamSlots(ins).value, q0, b0, h, qd, bd).outcome.Assembled?
    ensures var s := InParamSlots(ins).value;
            var args := AssembleSpec(s, q0, b0, h, qd, bd).outcome.args;
            |args| == 1 + PresentSlots(s) && args[0] == Receiver
  {
    var s := InParamSlots(ins).value;
    InParamSlotsSpec(ins);
    assert Tracks(ins, |ins|, s);
    assert s.header.Some? ==> SlotIndex(s, HeaderSlot) == s.header;
    assert s.query.Some? ==> SlotIndex(s, QuerySlot) == Some(s.query.value.index);
    assert s.body.Some? ==> SlotIndex(s, BodySlot) == Some(s.body.value.index);
    ReceiverFirst(s, q0, b0, h, qd, bd);
  }

  /** When no slot sits at position 0, an assembled list has paramsLen
      values and the receiver first. */
  lemma ReceiverFirst(s: Slots, q0: Record, b0: Record, h: Header, qd: Decoding, bd: Decoding)
    requires forall k :: SlotIndex(s, k).Some? ==> SlotIndex(s, k).value >= 1
    requires AssembleSpec(s, q0, b0, h, qd, bd).outcome.Assembled?
    ensures var args := AssembleSpec(s, q0, b0, h, qd, bd).outcome.args;
            |args| == ParamsLen(s) && args[0] == Receiver
  {
    assert SlotIndex(s, HeaderSlot).Some? ==> SlotIndex(s, HeaderSlot).value >= 1;
    assert SlotIndex(s, QuerySlot).Some? ==> SlotIndex(s, QuerySlot).value >= 1;
    assert SlotIndex(s, BodySlot).Some? ==> SlotIndex(s, BodySlot).value >= 1;
    AssembledForm(s, q0, b0, h, qd, bd);
    assert ArgAt(s, h, QueryAfter(s, q0, qd), BodyAfter(s, b0, bd), 0) == Receiver;
  }

  /** A panic is recovered: one raised before the method returns leaves
      the response as it was, and one raised by net/http's refusal of the
      status comes after the header is applied, with no status and no
      body sent. */
  lemma PanicWritesNothing(d: Descriptor, q0: Record, b0: Record, w0: Written, hooks: Hooks, h: Header,
                           qd: Decoding, bd: Decoding, invoke: seq<Arg> -> Results)
    requires ServeSpec(d, q0, b0, w0, hooks, h, qd, bd, invoke).outcome.Panicked?
    ensures var sv := ServeSpec(d, q0, b0, w0, hooks, h, qd, bd, invoke);
            sv.outcome.reason != StatusOutOfRange ==> sv.written == w0
    ensures var sv := ServeSpec(d, q0, b0, w0, hooks, h, qd, bd, invoke);
            sv.outcome.reason == StatusOutOfRange ==>
              w0.status.None? && sv.written.status.None? && sv.written.sentHeader == w0.sentHeader &&
              sv.written.body == w0.body &&
              sv.written.delegated == w0.delegated
  {
  }

  /** The method only runs with an argument list reflect accepts, and a
      method that ran and returned a response has had its response
      normalised. */
  lemma InvokedMeansAccepted(d: Descriptor, q0: Record, b0: Record, w0: Written, hooks: Hooks, h: Header,
                             qd: Decoding, bd: Decoding, invoke: seq<Arg> -> Results)
    requires ServeSpec(d, q0, b0, w0, hooks, h, qd, bd, invoke).outcome.Invoked?
    ensures var sv := ServeSpec(d, q0, b0, w0, hooks, h, qd, bd, invoke);
            var args := sv.outcome.args;
            CallAccepts(d.ins, args) && |args| == ParamsLen(d.slots) &&
            AssembleSpec(d.slots, q0, b0, h, qd, bd).outcome == Assembled(args) &&
            invoke(args).last.Responds? &&
            sv.written == ReplyWrites(w0, hooks, invoke(args).last.resp, DataOf(d.outCount, invoke(args)))
  {
    var st := AssembleSpec(d.slots, q0, b0, h, qd, bd);
    assert st.outcome.Assembled?;
    AssembledLength(d.slots, q0, b0, h, qd, bd);
  }

  /** An assembled argument list has paramsLen values. */
  lemma AssembledLength(s: Slots, q0: Record, b0: Record, h: Header, qd: Decoding, bd: Decoding)
    requires AssembleSpec(s, q0, b0, h, qd, bd).outcome.Assembled?
    ensures |AssembleSpec(s, q0, b0, h, qd, bd).outcome.args| == ParamsLen(s)
  {
    AssembledForm(s, q0, b0, h, qd, bd);
  }

  /** The default success path on a fresh response: the status sent is
      the response's code, or gin's 200 for a code <= 0; a code of 1..99
      or above 999 makes net/http panic once the header is applied. The
      body is {"result": data} when the method has two results (even when
      the first is a nil pointer) and the code allows a body, and absent,
      with the context aborted, when it has one; only the JSON render
      adds its content type to the header. */
  lemma DefaultSuccessReply(w0: Written, hooks: Hooks, resp: DefaultResponse, outCount: nat, ret: Results)
    requires w0 == Untouched && !hooks.success && resp.GetErr().None?
    ensures var w := ReplyWrites(w0, hooks, resp, DataOf(outCount, ret));
            var code := resp.GetCode();
            w.header == (if outCount == 1 then HeaderApply(map[], resp.GetHeader())
                         else JsonHeader(HeaderApply(map[], resp.GetHeader()))) &&
            w.delegated.None? &&
            (ReplyPanics(w0, hooks, resp) <==> 0 < code < 100 || code > 999) &&
            (ReplyPanics(w0, hooks, resp) ==> w.status.None? && w.sentHeader.None? && w.body.None? && !w.aborted) &&
            (!ReplyPanics(w0, hooks, resp) ==>
               w.status == Some(if code > 0 then code else StatusOK) && w.sentHeader == Some(w.header) &&
               (outCount == 1 ==> w.body.None? && w.aborted) &&
               (outCount != 1 ==>
                  !w.aborted && w.body == (if BodyAllowed(code) then Some(JsonBody(Some(ret.first), None)) else None)))
  {
  }

  /** The default error path on a fresh response: the status is chosen
      and refused as on the success path, and the body, when the code
      allows one, holds the error's text under "errMsg" and, with two
      results, the first one under "result". */
  lemma DefaultErrorReply(w0: Written, hooks: Hooks, resp: DefaultResponse, outCount: nat, ret: Results)
    requires w0 == Untouched && !hooks.error && resp.GetErr().Some?
    ensures var w := ReplyWrites(w0, hooks, resp, DataOf(outCount, ret));
            var code := resp.GetCode();
            w.header == JsonHeader(HeaderApply(map[], resp.GetHeader())) && w.delegated.None? && !w.aborted &&
            (ReplyPanics(w0, hooks, resp) <==> 0 < code < 100 || code > 999) &&
            (ReplyPanics(w0, hooks, resp) ==> w.status.None? && w.sentHeader.None? && w.body.None?) &&
            (!ReplyPanics(w0, hooks, resp) ==>
               w.status == Some(if code > 0 then code else StatusOK) && w.sentHeader == Some(w.header) &&
               (BodyAllowed(code) <==> w.body.Some?) &&
               (w.body.Some? ==> w.body.value.errMsg == Some(resp.GetErr().value.Text()) &&
                                 (w.body.value.result.Some? <==> outCount != 1)))
  {
  }

  /** The zero-value response, which carries code 0, goes out as 200
      with its data as a JSON body. */
  lemma ZeroCodeSendsOK(data: ResultValue)
    ensures var w := ReplyWrites(Untouched, Hooks(false, false), DefaultResponse(0, None, map[]), Some(data));
            w.status == Some(200) && w.body == Some(JsonBody(Some(data), None)) &&
            w.header[ContentTypeKey] == JsonContentType
  {
  }

  /** A configured hook replaces the default writer entirely: it is
      handed the response and the data, and nothing else is written. */
  lemma HookTakesOver(w0: Written, hooks: Hooks, resp: DefaultResponse, data: Option<ResultValue>)
    requires if resp.GetErr().None? then hooks.success else hooks.error
    ensures var w := ReplyWrites(w0, hooks, resp, data);
            w.delegated == Some(HookCall(if resp.GetErr().None? then SuccessHook else ErrorHook, resp, data)) &&
            w.header == w0.header && w.status == w0.status && w.body == w0.body && w.aborted == w0.aborted
  {
  }

  /** What the stricter classifier guarantees of the slots: one per
      input after the receiver, each at the position of an input of its
      own kind, the header one a plain http.Header, and the decoded ones
      describing their input. */
  lemma StrictSlotFacts(ins: seq<GoType>)
    requires |ins| >= 1 && StrictInParamSlots(ins).Some?
    ensures var s := StrictInParamSlots(ins).value;
            ParamsLen(s) == |ins| &&
            (forall i :: 1 <= i < |ins| ==> SlotIndex(s, KindOf(ins[i])) == Some(i)) &&
            (s.header.Some? ==> 1 <= s.header.value < |ins| && ins[s.header.value] == HttpHeaderType) &&
            (s.query.Some? ==> 1 <= s.query.value.index < |ins| && KindOf(ins[s.query.value.index]) == QuerySlot &&
                               ParamMatches(ins, s.query.value)) &&
            (s.body.Some? ==> 1 <= s.body.value.index < |ins| && KindOf(ins[s.body.value.index]) == BodySlot &&
                              ParamMatches(ins, s.body.value))
  {
    var s := StrictInParamSlots(ins).value;
    StrictSlotsCover(ins);
    InParamSlotsSpec(ins);
    assert Tracks(ins, |ins|, s);
    if s.header.Some? {
      var j := s.header.value;
      assert SlotIndex(s, HeaderSlot) == Some(j);
      assert LastOfKind(ins, |ins|, j, HeaderSlot);
      assert !HasPointerHeader(ins);
      assert ins[j] != Ptr(HttpHeaderType);
    }
    if s.query.Some? {
      assert SlotIndex(s, QuerySlot) == Some(s.query.value.index);
    }
    if s.body.Some? {
      assert SlotIndex(s, BodySlot) == Some(s.body.value.index);
    }
  }

  /** Under the stricter classifier, a request whose query and body
      decode always reaches the method: nothing panics on an index, the
      argument list has one value per input and reflect accepts it, and
      the decoded objects are the ones passed. */
  lemma StrictSignatureCallSucceeds(ins: seq<GoType>, q0: Record, b0: Record, h: Header, qd: Decoding, bd: Decoding)
    requires |ins| >= 1 && StrictInParamSlots(ins).Some?
    requires qd.Decoded? && bd.Decoded?
    ensures var s := StrictInParamSlots(ins).value;
            var st := AssembleSpec(s, q0, b0, h, qd, bd);
            st.outcome.Assembled? && CallAccepts(ins, st.outcome.args) &&
            (s.query.Some? ==> st.outcome.args[s.query.value.index] ==
                                 RecordArg(DecodeInto(q0, qd.fields), s.query.value.record, s.query.value.byPointer)) &&
            (s.body.Some? ==> st.outcome.args[s.body.value.index] ==
                                RecordArg(DecodeInto(b0, bd.fields), s.body.value.record, s.body.value.byPointer))
  {
    var s := StrictInParamSlots(ins).value;
    var q1, b1 := QueryAfter(s, q0, qd), BodyAfter(s, b0, bd);
    StrictSlotFacts(ins);
    assert IndicesFit(s);
    AssembledForm(s, q0, b0, h, qd, bd);
    StrictArgsFit(ins, h, q1, b1);
  }

  /** The argument at one position after the receiver fits that input,
      when the slot of the input's kind points at it and every slot sits
      on an input of its own kind that it describes. */
  lemma ArgFitsAt(ins: seq<GoType>, s: Slots, h: Header, q: Record, b: Record, i: int)
    requires 1 <= i < |ins| && SlotIndex(s, KindOf(ins[i])) == Some(i)
    requires s.header.Some? ==> s.header.value < |ins| && ins[s.header.value] == HttpHeaderType
    requires s.query.Some? ==> s.query.value.index < |ins| && KindOf(ins[s.query.value.index]) == QuerySlot &&
                               ParamMatches(ins, s.query.value)
    requires s.body.Some? ==> s.body.value.index < |ins| && KindOf(ins[s.body.value.index]) == BodySlot &&
                              ParamMatches(ins, s.body.value)
    ensures ArgFits(ArgAt(s, h, q, b, i), ins[i])
  {
    match KindOf(ins[i])
    case HeaderSlot =>
      assert s.header == Some(i);
      assert ArgAt(s, h, q, b, i) == HeaderArg(h);
    case QuerySlot =>
      var prm := s.query.value;
      assert prm.index == i;
      assert ArgAt(s, h, q, b, i) == RecordArg(q, prm.record, prm.byPointer);
    case BodySlot =>
      assert s.body.value.index == i;
  }

  /** The argument list built on the stricter classifier's slots is one
      reflect accepts, whatever the records hold. */
  lemma StrictArgsFit(ins: seq<GoType>, h: Header, q: Record, b: Record)
    requires |ins| >= 1 && StrictInParamSlots(ins).Some?
    ensures CallAccepts(ins, seq(|ins|, i => ArgAt(StrictInParamSlots(ins).value, h, q, b, i)))
  {
    var s := StrictInParamSlots(ins).value;
    StrictSlotFacts(ins);
    var args := seq(|ins|, i => ArgAt(s, h, q, b, i));
    forall i | 1 <= i < |ins|
      ensures ArgFits(args[i], ins[i])
    {
      ArgFitsAt(ins, s, h, q, b, i);
    }
  }

  // ----- What the classifier as written lets through -----

  const ServiceType: GoType := Ptr(Struct("UserService"))

  /** Two body structs: initInParams accepts the method, paramsLen counts
      one body slot, and the second body's index is past the end of the
      argument list, so every request that decodes panics. */
  lemma DuplicateBodyPanics(q0: Record, b0: Record, h: Header, qd: Decoding, fields: Record)
    ensures var ins := [ServiceType, Struct("CreateForm"), Struct("UpdateForm")];
            InParamSlots(ins) == Some(Slots(None, None, Some(Param(2, false, Struct("UpdateForm"))))) &&
            StrictInParamSlots(ins).None? &&
            AssembleSpec(InParamSlots(ins).value, q0, b0, h, qd, Decoded(fields)).outcome == IndexPanic
  {
    var ins := [ServiceType, Struct("CreateForm"), Struct("UpdateForm")];
    assert !HasSuffix("CreateForm", QuerySuffix) && !HasSuffix("UpdateForm", QuerySuffix);
    assert KindOf(ins[1]) == BodySlot && KindOf(ins[2]) == BodySlot;
    var s1 := Assign(NoSlots, 1, ins[1]);
    var s2 := Assign(s1, 2, ins[2]);
    assert s2 == Slots(None, None, Some(Param(2, false, Struct("UpdateForm"))));
    assert SlotsFrom(ins, 3, s2) == Some(s2);
    assert SlotsFrom(ins, 2, s1) == Some(s2);
    assert SlotsFrom(ins, 1, NoSlots) == Some(s2);
    assert HasDuplicateSlot(ins);
  }

  /** A *http.Header input: initInParams accepts it, but the handler
      passes the header map itself, which reflect refuses for a pointer
      input, so every request panics in Call. */
  lemma PointerHeaderMismatch(q0: Record, b0: Record, h: Header, qd: Decoding, bd: Decoding)
    ensures var ins := [ServiceType, Ptr(HttpHeaderType)];
            InParamSlots(ins).Some? && StrictInParamSlots(ins).None? &&
            var st := AssembleSpec(InParamSlots(ins).value, q0, b0, h, qd, bd);
            st.outcome == Assembled([Receiver, HeaderArg(h)]) && !CallAccepts(ins, st.outcome.args)
  {
    var ins := [ServiceType, Ptr(HttpHeaderType)];
    assert ins[1].Ptr? && IsHttpHeaderSignature(ins[1].elem);
    assert KindOf(ins[1]) == HeaderSlot;
    var s := Slots(Some(1), None, None);
    assert SlotsFrom(ins, 2, s) == Some(s);
    assert SlotsFrom(ins, 1, NoSlots) == Some(s);
    var st := AssembleSpec(s, q0, b0, h, qd, bd);
    assert st.outcome.args == [Receiver, HeaderArg(h)];
  }

  const ListQuery: Param := Param(1, false, Struct("ListQuery"))

  /** Decoding onto the object made once at bind time: a field sent in
      one request is still set when the next request omits it. */
  lemma StaleQueryField(h: Header, bd: Decoding)
    ensures var s := Slots(None, Some(ListQuery), None);
            var first := AssembleSpec(s, map[], map[], h, Decoded(map["page" := "3"]), bd);
            var second := AssembleSpec(s, first.query, first.body, h, Decoded(map[]), bd);
            second.outcome == Assembled([Receiver, RecordArg(map["page" := "3"], ListQuery.record, false)])
  {
    var s := Slots(None, Some(ListQuery), None);
    var seen: Record := map["page" := "3"];
    assert DecodeInto(map[], seen) == seen;
    assert DecodeInto(seen, map[]) == seen;
    var first := AssembleSpec(s, map[], map[], h, Decoded(seen), bd);
    assert first.query == seen;
    var second := AssembleSpec(s, seen, first.body, h, Decoded(map[]), bd);
    assert second.outcome == Assembled(seq(2, i => ArgAt(s, h, seen, first.body, i)));
    assert seq(2, i => ArgAt(s, h, seen, first.body, i)) == [Receiver, RecordArg(seen, ListQuery.record, false)];
  }

  /** The assembly as intended: every request decodes onto a fresh
      object, as reflect.New would give it. */
  function FreshAssembly(s: Slots, h: Header, qd: Decoding, bd: Decoding): Assembly
  {
    AssembleSpec(s, map[], map[], h, qd, bd).outcome
  }

  /** Then the records a method receives are exactly what the current
      request carries, whatever earlier requests sent. */
  lemma FreshAssemblyForgetsEarlierRequests(s: Slots, h: Header, qd: Decoding, bd: Decoding)
    requires FreshAssembly(s, h, qd, bd).Assembled?
    ensures s.query.Some? ==>
              qd.Decoded? && s.query.value.index < |FreshAssembly(s, h, qd, bd).args| &&
              (s.body.None? || s.body.value.index != s.query.value.index ==>
                 FreshAssembly(s, h, qd, bd).args[s.query.value.index] ==
                   RecordArg(qd.fields, s.query.value.record, s.query.value.byPointer))
    ensures s.body.Some? ==>
              bd.Decoded? && s.body.value.index < |FreshAssembly(s, h, qd, bd).args| &&
              FreshAssembly(s, h, qd, bd).args[s.body.value.index] ==
                RecordArg(bd.fields, s.body.value.record, s.body.value.byPointer)
  {
    if s.query.Some? {
      assert (map[] + qd.fields) == qd.fields;
    }
    if s.body.Some? {
      assert (map[] + bd.fields) == bd.fields;
    }
  }
}
