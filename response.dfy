/** What an action handler writes through gin's context: response headers,
    the status, a JSON body and the abort flag; and the response writers
    setHeader, defaultSuccessResponse and defaultErrResponse (server.go). */
module Response {
  import opened Common
  import opened Payload

  /** The value of the "result" key: what the method's first result
      marshals to, or a nil pointer, which marshals to null. */
  datatype ResultValue = NilPointer | Data(json: string)

  /** The gin.H a handler renders: an optional "result" key and an
      optional "errMsg" key (JsonBody(None, None) is gin.H{}). */
  datatype JsonBody = JsonBody(result: Option<ResultValue>, errMsg: Option<string>)

  datatype HookKind = SuccessHook | ErrorHook

  /** A call of the configured SuccessResponseFunc or ErrResponseFunc:
      what it does with the context is up to the application. */
  datatype HookCall = HookCall(hook: HookKind, resp: DefaultResponse, data: Option<ResultValue>)

  /** Everything written to one response so far. header is the handler's
      header map; sentHeader is the copy net/http took of it when the
      status went out, which is what the client receives: header writes
      after the status change only the map. The body is the one JSON
      body the core writes per request: the handler renders at most one,
      so a later body never follows it on the wire. */
  datatype Written = Written(
    header: map<string, string>,
    status: Option<int>,
    sentHeader: Option<map<string, string>>,
    body: Option<JsonBody>,
    aborted: bool,
    delegated: Option<HookCall>)

  const Untouched: Written := Written(map[], None, None, None, false, None)

  /** ctx.Header(key, value): an empty value deletes the key, any other
      value replaces whatever the key held. */
  function HeaderOne(w: map<string, string>, key: string, value: string): (r: map<string, string>)
    ensures value == "" ==> key !in r
    ensures value != "" ==> key in r && r[key] == value
    ensures forall k :: k != key ==> (k in r <==> k in w) && (k in r ==> r[k] == w[k])
  {
    if value == "" then w - {key} else w[key := value]
  }

  /** Writing a key a second time forgets the first write. */
  lemma HeaderOneOverwrites(w: map<string, string>, key: string, a: string, b: string)
    ensures HeaderOne(HeaderOne(w, key, a), key, b) == HeaderOne(w, key, b)
  {
    var l, r := HeaderOne(HeaderOne(w, key, a), key, b), HeaderOne(w, key, b);
    assert l.Keys == r.Keys;
  }

  /** ctx.Header(key, v) for each v of values in turn. */
  function HeaderAfter(w: map<string, string>, key: string, values: seq<string>): map<string, string>
  {
    if values == [] then w
    else HeaderOne(HeaderAfter(w, key, values[..|values| - 1]), key, values[|values| - 1])
  }

  /** Of the values written for one key only the last one counts. */
  lemma {:induction false} LastValueWins(w: map<string, string>, key: string, values: seq<string>)
    requires values != []
    ensures HeaderAfter(w, key, values) == HeaderOne(w, key, values[|values| - 1])
  {
    var init := values[..|values| - 1];
    if init != [] {
      LastValueWins(w, key, init);
      assert init[|init| - 1] == values[|values| - 2];
      HeaderOneOverwrites(w, key, values[|values| - 2], values[|values| - 1]);
    }
  }

  /** The key has at least one value in the header. */
  predicate HasValues(h: Header, k: string)
  {
    k in h && h[k] != []
  }

  function LastValue(h: Header, k: string): string
    requires HasValues(h, k)
  {
    h[k][|h[k]| - 1]
  }

  /** The response header once setHeader has run on top of w, in closed
      form: a key with values ends up holding its last value, or is gone
      when that value is empty; every other key is as it was. */
  function HeaderApply(w: map<string, string>, h: Header): (r: map<string, string>)
    ensures forall k :: HasValues(h, k) && LastValue(h, k) != "" ==> k in r && r[k] == LastValue(h, k)
    ensures forall k :: HasValues(h, k) && LastValue(h, k) == "" ==> k !in r
    ensures forall k :: !HasValues(h, k) ==> (k in r <==> k in w) && (k in r ==> r[k] == w[k])
  {
    map k | k in w.Keys + h.Keys && (if HasValues(h, k) then LastValue(h, k) != "" else k in w)
      :: if HasValues(h, k) then LastValue(h, k) else w[k]
  }

  function Restrict(h: Header, keys: set<string>): (r: Header)
    ensures forall k :: k in r <==> k in h && k in keys
    ensures forall k :: k in r ==> r[k] == h[k]
  {
    map k | k in h && k in keys :: h[k]
  }

  /** One key of one turn of setHeader's outer loop: after writing the
      values of one more key, k holds what the closed form with that key
      added says. */
  lemma ApplyOneMoreKeyAt(w: map<string, string>, h: Header, done: set<string>, key: string, k: string)
    requires key in h && key !in done
    ensures var l := HeaderAfter(HeaderApply(w, Restrict(h, done)), key, h[key]);
            var r := HeaderApply(w, Restrict(h, done + {key}));
            (k in l <==> k in r) && (k in l ==> l[k] == r[k])
  {
    var before := HeaderApply(w, Restrict(h, done));
    var vs := h[key];
    if vs != [] {
      LastValueWins(before, key, vs);
    }
    if k == key {
      AppliedKey(w, h, done, key);
    } else {
      OtherKeyKept(w, h, done, key, k);
    }
  }

  /** The key just written holds what the closed form says of it. */
  lemma AppliedKey(w: map<string, string>, h: Header, done: set<string>, key: string)
    requires key in h && key !in done
    ensures var before := HeaderApply(w, Restrict(h, done));
            var l := if h[key] == [] then before else HeaderOne(before, key, h[key][|h[key]| - 1]);
            var r := HeaderApply(w, Restrict(h, done + {key}));
            (key in l <==> key in r) && (key in l ==> l[key] == r[key])
  {
    var hd, hk := Restrict(h, done), Restrict(h, done + {key});
    assert !HasValues(hd, key);
    if h[key] != [] {
      assert HasValues(hk, key) && LastValue(hk, key) == h[key][|h[key]| - 1];
    } else {
      assert !HasValues(hk, key);
    }
  }

  /** Every other key is where the closed form puts it already. */
  lemma OtherKeyKept(w: map<string, string>, h: Header, done: set<string>, key: string, k: string)
    requires key in h && key !in done && k != key
    ensures var before := HeaderApply(w, Restrict(h, done));
            var l := if h[key] == [] then before else HeaderOne(before, key, h[key][|h[key]| - 1]);
            var r := HeaderApply(w, Restrict(h, done + {key}));
            (k in l <==> k in r) && (k in l ==> l[k] == r[k])
  {
    var hd, hk := Restrict(h, done), Restrict(h, done + {key});
    assert HasValues(hk, k) == HasValues(hd, k);
    assert HasValues(hk, k) ==> LastValue(hk, k) == LastValue(hd, k);
  }

  /** One turn of setHeader's outer loop: writing all values of one more
      key moves that key into the part of the header already applied. */
  lemma ApplyOneMoreKey(w: map<string, string>, h: Header, done: set<string>, key: string)
    requires key in h && key !in done
    ensures HeaderAfter(HeaderApply(w, Restrict(h, done)), key, h[key]) == HeaderApply(w, Restrict(h, done + {key}))
  {
    var l := HeaderAfter(HeaderApply(w, Restrict(h, done)), key, h[key]);
    var r := HeaderApply(w, Restrict(h, done + {key}));
    forall k
      ensures (k in l <==> k in r) && (k in l ==> l[k] == r[k])
    {
      ApplyOneMoreKeyAt(w, h, done, key, k);
    }
    SameEntries(l, r);
  }

  /** Two maps with the same keys and the same value at each key are
      equal. */
  lemma SameEntries(l: map<string, string>, r: map<string, string>)
    requires forall k :: (k in l <==> k in r) && (k in l ==> l[k] == r[k])
    ensures l == r
  {
    assert l.Keys == r.Keys;
  }

  /** gin's default status, which it keeps when asked for a code <= 0. */
  const StatusOK := 200

  /** The status gin passes on to net/http when asked for code: its
      responseWriter ignores a code <= 0 and keeps the default. */
  function SentStatus(code: int): int
  {
    if code > 0 then code else StatusOK
  }

  /** net/http's WriteHeader panics on a code outside 100..999. */
  predicate ValidStatus(code: int)
  {
    100 <= code <= 999
  }

  /** Sending the status panics when none has been sent yet and the code
      gin passes on is one net/http refuses. Once a status is out, gin
      does not call WriteHeader again. */
  predicate StatusPanics(w: Written, code: int)
  {
    w.status.None? && !ValidStatus(SentStatus(code))
  }

  /** gin renders no body for a 1xx, 204 or 304 code
      (bodyAllowedForStatus). */
  predicate BodyAllowed(code: int)
  {
    !(100 <= code <= 199 || code == 204 || code == 304)
  }

  /** The status line is sent once: the first status sent stays, and the
      header goes out with it. */
  function StatusWrite(w: Written, code: int): (r: Written)
    ensures r.status.Some?
    ensures w.status.Some? ==> r == w
    ensures w.status.None? && code > 0 ==> r.status == Some(code)
    ensures w.status.None? && code <= 0 ==> r.status == Some(StatusOK)
    ensures w.status.None? ==> r.sentHeader == Some(w.header)
    ensures r.header == w.header && r.body == w.body && r.aborted == w.aborted && r.delegated == w.delegated
  {
    if w.status.Some? then w else w.(status := Some(SentStatus(code)), sentHeader := Some(w.header))
  }

  /** The header key gin's JSON render fills in, and the value
      render.JSON puts there. */
  const ContentTypeKey := "Content-Type"
  const JsonContentType := "application/json; charset=utf-8"

  /** render.JSON's writeContentType: a Content-Type already in the
      header (set through the response's header, say) is kept, otherwise
      the JSON one is added; every other key is untouched. */
  function JsonHeader(h: map<string, string>): (r: map<string, string>)
    ensures ContentTypeKey in r
    ensures r[ContentTypeKey] == if ContentTypeKey in h then h[ContentTypeKey] else JsonContentType
    ensures forall k :: k != ContentTypeKey ==> (k in r <==> k in h) && (k in r ==> r[k] == h[k])
  {
    if ContentTypeKey in h then h else h[ContentTypeKey := JsonContentType]
  }

  /** ctx.AbortWithStatus(code): the status is sent, then the context is
      aborted; when sending the status panics, nothing changes. */
  function AbortWrite(w: Written, code: int): Written
  {
    if StatusPanics(w, code) then w else StatusWrite(w, code).(aborted := true)
  }

  /** ctx.JSON(code, b): gin's Render fills in the content type on both
      of its branches, then the status is sent, then the body, unless the
      code allows none; when sending the status panics, the content type
      is all that has changed. */
  function JsonWrite(w: Written, code: int, b: JsonBody): Written
  {
    var w1 := w.(header := JsonHeader(w.header));
    if StatusPanics(w1, code) then w1
    else if BodyAllowed(code) then StatusWrite(w1, code).(body := Some(b))
    else StatusWrite(w1, code)
  }

  /** defaultSuccessResponse: the response's header is applied, then
      without data only the response's status is sent and the context is
      aborted, and with data the body is {"result": data}, rendered as
      JSON with its content type. A status net/http refuses stops it
      after the header. */
  function SuccessWrites(w: Written, resp: DefaultResponse, data: Option<ResultValue>): (r: Written)
    ensures data.None? ==> r.header == HeaderApply(w.header, resp.GetHeader())
    ensures data.Some? ==> r.header == JsonHeader(HeaderApply(w.header, resp.GetHeader()))
    ensures StatusPanics(w, resp.GetCode()) ==> r.status == w.status && r.body == w.body && r.aborted == w.aborted
    ensures !StatusPanics(w, resp.GetCode()) ==> r.status == StatusWrite(w, resp.GetCode()).status
    ensures w.status.None? && !StatusPanics(w, resp.GetCode()) ==> r.sentHeader == Some(r.header)
    ensures StatusPanics(w, resp.GetCode()) || w.status.Some? ==> r.sentHeader == w.sentHeader
    ensures !StatusPanics(w, resp.GetCode()) && data.None? ==> r.body == w.body && r.aborted
    ensures !StatusPanics(w, resp.GetCode()) && data.Some? ==>
              r.body == (if BodyAllowed(resp.GetCode()) then Some(JsonBody(data, None)) else w.body) &&
              r.aborted == w.aborted
    ensures r.delegated == w.delegated
  {
    var w1 := w.(header := HeaderApply(w.header, resp.GetHeader()));
    if data.None? then AbortWrite(w1, resp.GetCode())
    else JsonWrite(w1, resp.GetCode(), JsonBody(data, None))
  }

  /** defaultErrResponse: the response's header is applied and the body
      carries the error's text under "errMsg", and the data under
      "result" when there is any, rendered as JSON with its content type.
      A status net/http refuses stops it after the header. */
  function ErrorWrites(w: Written, resp: DefaultResponse, data: Option<ResultValue>): (r: Written)
    requires resp.GetErr().Some?
    ensures r.header == JsonHeader(HeaderApply(w.header, resp.GetHeader()))
    ensures StatusPanics(w, resp.GetCode()) ==> r.status == w.status && r.body == w.body
    ensures !StatusPanics(w, resp.GetCode()) ==> r.status == StatusWrite(w, resp.GetCode()).status
    ensures w.status.None? && !StatusPanics(w, resp.GetCode()) ==> r.sentHeader == Some(r.header)
    ensures StatusPanics(w, resp.GetCode()) || w.status.Some? ==> r.sentHeader == w.sentHeader
    ensures !StatusPanics(w, resp.GetCode()) ==>
              r.body == (if BodyAllowed(resp.GetCode()) then Some(JsonBody(data, Some(resp.GetErr().value.Text()))) else w.body)
    ensures r.aborted == w.aborted && r.delegated == w.delegated
  {
    var w1 := w.(header := HeaderApply(w.header, resp.GetHeader()));
    JsonWrite(w1, resp.GetCode(), JsonBody(data, Some(resp.GetErr().value.Text())))
  }

  /** The part of gin.Context the core writes to. */
  class Context {
    var header: map<string, string>
    var status: Option<int>
    var sentHeader: Option<map<string, string>>
    var body: Option<JsonBody>
    var aborted: bool
    var delegated: Option<HookCall>

    constructor ()
      ensures Snapshot() == Untouched
    {
      header, status, sentHeader, body, aborted, delegated := map[], None, None, None, false, None;
    }

    function Snapshot(): Written
      reads this
    {
      Written(header, status, sentHeader, body, aborted, delegated)
    }

    method Header(key: string, value: string)
      modifies this
      ensures Snapshot() == old(Snapshot()).(header := HeaderOne(old(header), key, value))
    {
      if value == "" {
        header := header - {key};
      } else {
        header := header[key := value];
      }
    }

    method Abort()
      modifies this
      ensures Snapshot() == old(Snapshot()).(aborted := true)
    {
      aborted := true;
    }

    /** Sends the status, and the header as it stands, unless a status
        is out; panics tells whether net/http refused it. */
    method WriteStatus(code: int) returns (panics: bool)
      modifies this
      ensures panics == StatusPanics(old(Snapshot()), code)
      ensures panics ==> Snapshot() == old(Snapshot())
      ensures !panics ==> Snapshot() == StatusWrite(old(Snapshot()), code)
    {
      if status.Some? {
        return false;
      }
      var sent := SentStatus(code);
      if !ValidStatus(sent) {
        return true;
      }
      status, sentHeader := Some(sent), Some(header);
      return false;
    }

    method AbortWithStatus(code: int) returns (panics: bool)
      modifies this
      ensures panics == StatusPanics(old(Snapshot()), code)
      ensures Snapshot() == AbortWrite(old(Snapshot()), code)
    {
      panics := WriteStatus(code);
      if panics {
        return;
      }
      aborted := true;
    }

    method JSON(code: int, b: JsonBody) returns (panics: bool)
      modifies this
      ensures panics == StatusPanics(old(Snapshot()), code)
      ensures Snapshot() == JsonWrite(old(Snapshot()), code, b)
    {
      if ContentTypeKey !in header {
        header := header[ContentTypeKey := JsonContentType];
      }
      panics := WriteStatus(code);
      if panics || !BodyAllowed(code) {
        return;
      }
      body := Some(b);
    }

    /** Hands the response to a configured hook. */
    method Delegate(call: HookCall)
      modifies this
      ensures Snapshot() == old(Snapshot()).(delegated := Some(call))
    {
      delegated := Some(call);
    }

    /** setHeader's inner loop: ctx.Header(key, v) for every value v of
        one key, in order. */
    method HeaderEach(key: string, vs: seq<string>)
      modifies this
      ensures Snapshot() == old(Snapshot()).(header := HeaderAfter(old(header), key, vs))
    {
      var i := 0;
      while i < |vs|
        invariant 0 <= i <= |vs|
        invariant Snapshot() == old(Snapshot()).(header := HeaderAfter(old(header), key, vs[..i]))
      {
        assert vs[..i + 1][..i] == vs[..i];
        Header(key, vs[i]);
        i := i + 1;
      }
      assert vs[..i] == vs;
    }

    /** setHeader: every value of every key of h through ctx.Header, the
        keys in map order, which is unspecified; whatever the order, the
        header ends up as HeaderApply says. */
    method SetHeader(h: Header)
      modifies this
      ensures Snapshot() == old(Snapshot()).(header := HeaderApply(old(header), h))
    {
      var keys := h.Keys;
      ghost var done: set<string> := {};
      assert Restrict(h, done) == map[];
      assert HeaderApply(old(header), map[]) == old(header);
      while keys != {}
        invariant keys <= h.Keys && done == h.Keys - keys
        invariant Snapshot() == old(Snapshot()).(header := HeaderApply(old(header), Restrict(h, done)))
        decreases keys
      {
        var k :| k in keys;
        HeaderEach(k, h[k]);
        ApplyOneMoreKey(old(header), h, done, k);
        done := done + {k};
        keys := keys - {k};
      }
      assert Restrict(h, done) == h;
    }
  }

  /** defaultSuccessResponse. */
  method DefaultSuccessResponse(ctx: Context, resp: DefaultResponse, data: Option<ResultValue>) returns (panics: bool)
    modifies ctx
    ensures panics == StatusPanics(old(ctx.Snapshot()), resp.GetCode())
    ensures ctx.Snapshot() == SuccessWrites(old(ctx.Snapshot()), resp, data)
  {
    var httpCode := resp.GetCode();
    var header := resp.GetHeader();
    ctx.SetHeader(header);
    if data.None? {
      panics := ctx.AbortWithStatus(httpCode);
      return;
    }
    panics := ctx.JSON(httpCode, JsonBody(data, None));
  }

  /** defaultErrResponse; it is only reached with an error set. */
  method DefaultErrResponse(ctx: Context, resp: DefaultResponse, data: Option<ResultValue>) returns (panics: bool)
    requires resp.GetErr().Some?
    modifies ctx
    ensures panics == StatusPanics(old(ctx.Snapshot()), resp.GetCode())
    ensures ctx.Snapshot() == ErrorWrites(old(ctx.Snapshot()), resp, data)
  {
    var httpCode := resp.GetCode();
    var header := resp.GetHeader();
    var err := resp.GetErr().value;
    ctx.SetHeader(header);
    var ret := JsonBody(None, Some(err.Text()));
    if data.Some? {
      ret := ret.(result := data);
    }
    panics := ctx.JSON(httpCode, ret);
  }
}
