/** The response contract a service method returns as its last result. */
module Payload {
  import opened Common

  /** net/http.Header: each key maps to its list of values. A nil header
      and an empty one behave the same everywhere in the core (ranging
      over a nil map visits nothing), so both are the empty map here. */
  type Header = map<string, seq<string>>

  /** payload.DefaultResponse. It is the only implementation of the
      Response interface in the package; the dispatcher sees any
      implementation only through the three getters, so a value of this
      type also stands for "what the getters of some Response return". */
  datatype DefaultResponse = DefaultResponse(code: int, err: Option<Error>, header: Header)
  {
    function GetCode(): int
    {
      code
    }

    function GetErr(): Option<Error>
    {
      err
    }

    function GetHeader(): Header
    {
      header
    }
  }

  /** The getters return the fields unchanged: a response rebuilt from
      what its getters report is the same response, and two responses
      whose getters agree are equal. */
  lemma GettersRoundTrip(d: DefaultResponse, e: DefaultResponse)
    ensures DefaultResponse(d.GetCode(), d.GetErr(), d.GetHeader()) == d
    ensures (d.GetCode() == e.GetCode() && d.GetErr() == e.GetErr() && d.GetHeader() == e.GetHeader()) <==> d == e
  {
  }
}
