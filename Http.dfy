/** The parts of net/http's Response and Header that the proxy touches. */
module Http {
  import opened Wrappers

  /** http.Header: canonical header name to its list of values. */
  type Header = map<string, seq<string>>

  /** Header.Values: the values stored under key, none if it is absent. */
  function Values(h: Header, key: string): seq<string>
  {
    if key in h then h[key] else []
  }

  /** Header.Set: key now holds exactly one value; every other key is kept. */
  function Set(h: Header, key: string, value: string): (r: Header)
    ensures r.Keys == h.Keys + {key}
    ensures Values(r, key) == [value]
    ensures forall k :: k in h && k != key ==> r[k] == h[k]
  {
    h[key := [value]]
  }

  /** Header.Add: value is appended after the values key already had; every
      other key is kept. */
  function Add(h: Header, key: string, value: string): (r: Header)
    ensures r.Keys == h.Keys + {key}
    ensures Values(r, key) == Values(h, key) + [value]
    ensures |Values(r, key)| == |Values(h, key)| + 1
    ensures forall k :: k in h && k != key ==> r[k] == h[k]
  {
    h[key := Values(h, key) + [value]]
  }

  /** A response body stream: the bytes it yields, and the error (if any) that
      reading it to the end or closing it reports. */
  datatype Body = Body(data: seq<char>, readError: Option<string>, closeError: Option<string>)

  /** ioutil.NopCloser(bytes.NewReader(b)) and ioutil.NopCloser(bytes.NewBufferString(b)):
      an in-memory body that neither reading nor closing can make fail. */
  function BufferBody(b: seq<char>): (body: Body)
    ensures body.data == b && body.readError.None? && body.closeError.None?
  {
    Body(b, None, None)
  }

  /** The fields of an http.Response the proxy reads or writes. A None header
      is Go's nil Header map; contentLength is Go's int64 ContentLength. */
  datatype ResponseValue = ResponseValue(
    statusCode: int,
    body: Body,
    contentLength: int,
    header: Option<Header>)

  /** *http.Response: a record the response rewrite updates in place. */
  class Response {
    var statusCode: int
    var body: Body
    var contentLength: int
    var header: Option<Header>

    constructor (v: ResponseValue)
      ensures Value() == v
    {
      statusCode := v.statusCode;
      body := v.body;
      contentLength := v.contentLength;
      header := v.header;
    }

    /** The record's current field values. */
    function Value(): ResponseValue
      reads this
    {
      ResponseValue(statusCode, body, contentLength, header)
    }
  }
}
