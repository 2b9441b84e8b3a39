/** rewriteBody, the ModifyResponse hook of the startup proxy: drain the body,
    capitalise `background`, fix the length and add two permissive headers. */
module Rewrite {
  import opened Wrappers
  import opened Http
  import Replace
  import Decimal

  /** What rewriteBody ends with: nil, the read or close error it returns, or the
      run-time panic of assigning into a nil Header map. */
  datatype RewriteOutcome = Done | Failed(err: string) | NilHeaderPanic

  const ContentSecurityPolicy: string :=
    "default-src * 'unsafe-inline' 'unsafe-eval'; img-src * data:; script-src * ; script-src-elem * 'unsafe-inline' ; font-src * data:"

  /** The three header writes of a successful rewrite of a body of length n. */
  function RewriteHeader(h: Header, n: nat): Header
  {
    var h1 := Set(h, "Content-Length", Decimal.Itoa(n));
    var h2 := Add(h1, "Content-Security-Policy", ContentSecurityPolicy);
    Add(h2, "Access-Control-Allow-Origin", "*")
  }

  /** The effect of rewriteBody on a response: its outcome and the response
      record afterwards. A failure to read or close the body leaves the record
      as it was; otherwise the body is always replaced and the length set, and
      only a missing header map stops the header writes. */
  function Rewrite(v: ResponseValue): (r: (RewriteOutcome, ResponseValue))
    ensures r.0.Failed? <==> v.body.readError.Some? || v.body.closeError.Some?
    ensures v.body.readError.Some? ==> r == (Failed(v.body.readError.value), v)
    ensures v.body.readError.None? && v.body.closeError.Some? ==> r == (Failed(v.body.closeError.value), v)
    ensures r.0 == NilHeaderPanic <==> !r.0.Failed? && v.header.None?
    ensures !r.0.Failed? ==>
      && r.1.statusCode == v.statusCode
      && r.1.body == BufferBody(Replace.Capitalise(v.body.data))
      && r.1.contentLength == |v.body.data|
    ensures r.0 == NilHeaderPanic ==> r.1.header.None?
  {
    if v.body.readError.Some? then (Failed(v.body.readError.value), v)
    else if v.body.closeError.Some? then (Failed(v.body.closeError.value), v)
    else
      var b := Replace.Capitalise(v.body.data);
      var v' := v.(body := BufferBody(b), contentLength := |b|);
      match v.header
      case None => (NilHeaderPanic, v')
      case Some(h) => (Done, v'.(header := Some(RewriteHeader(h, |b|))))
  }

  /** The record after a successful rewrite agrees with itself about its size:
      Content-Length holds one decimal value that reads back as the body's length,
      and ContentLength is that length too. */
  predicate LengthConsistent(v: ResponseValue)
  {
    && v.header.Some?
    && Values(v.header.value, "Content-Length") == [Decimal.Itoa(|v.body.data|)]
    && v.contentLength == |v.body.data|
  }

  /** What a successful rewrite promises: every `background` in the body is now
      `Background` and none is left, the length did not change and is what both
      ContentLength and the Content-Length header say, the two policy headers are
      appended after any values they already had, and every other header and the
      status are untouched. */
  lemma RewriteSucceeds(v: ResponseValue)
    requires Rewrite(v).0 == Done
    ensures var w := Rewrite(v).1;
      && w.statusCode == v.statusCode
      && w.body == BufferBody(Replace.Capitalise(v.body.data))
      && !Replace.Contains(w.body.data)
      && |w.body.data| == |v.body.data|
      && LengthConsistent(w)
      && Decimal.Value(Values(w.header.value, "Content-Length")[0]) == |w.body.data|
      && Values(w.header.value, "Content-Security-Policy")
         == Values(v.header.value, "Content-Security-Policy") + [ContentSecurityPolicy]
      && Values(w.header.value, "Access-Control-Allow-Origin")
         == Values(v.header.value, "Access-Control-Allow-Origin") + ["*"]
      && w.header.value.Keys
         == v.header.value.Keys + {"Content-Length", "Content-Security-Policy", "Access-Control-Allow-Origin"}
      && (forall k :: k in v.header.value && k !in {"Content-Length", "Content-Security-Policy", "Access-Control-Allow-Origin"}
                      ==> w.header.value[k] == v.header.value[k])
  {
    var w := Rewrite(v).1;
    Replace.NoPatternRemains(v.body.data);
    Decimal.ValueOfItoa(|w.body.data|);
  }

  /** rewriteBody(resp): updates the record in place exactly as Rewrite says. */
  method RewriteBody(resp: Response) returns (outcome: RewriteOutcome)
    modifies resp
    ensures (outcome, resp.Value()) == Rewrite(old(resp.Value()))
  {
    if resp.body.readError.Some? {
      return Failed(resp.body.readError.value);
    }
    var b := resp.body.data;
    if resp.body.closeError.Some? {
      return Failed(resp.body.closeError.value);
    }
    b := Replace.Capitalise(b);
    resp.body := BufferBody(b);
    resp.contentLength := |b|;
    if resp.header.None? {
      return NilHeaderPanic;
    }
    var h := resp.header.value;
    h := Set(h, "Content-Length", Decimal.Itoa(|b|));
    h := Add(h, "Content-Security-Policy", ContentSecurityPolicy);
    h := Add(h, "Access-Control-Allow-Origin", "*");
    resp.header := Some(h);
    return Done;
  }
}
