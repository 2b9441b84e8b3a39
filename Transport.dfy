/** ConnectionErrorHandler: the RoundTripper decorator that turns a network-level
    failure of the inner transport into a synthetic "503 Backend Unavailable" page. */
module Transport {
  import opened Wrappers
  import opened Http
  import Replace
  import Decimal
  import Rewrite

  /** The fixed HTML page sent when the backend cannot be reached. */
  const Message: string :=
    "<!DOCTYPE html><html>\n" +
    "<head>\n" +
    "<title>\n" +
    "Backend Unavailable\n" +
    "</title>\n" +
    "<style>\n" +
    "body {\n" +
    "\tfont-family: fantasy;\n" +
    "\ttext-align: center;\n" +
    "\tpadding-top: 20%;\n" +
    "\tbackground-color: #f1f6f8;\n" +
    "}\n" +
    "</style>\n" +
    "</head>\n" +
    "<body>\n" +
    "<h1>503 Backend Unavailable</h1>\n" +
    "<p>Sorry, we&lsquo;re having a brief problem. You can retry.</p>\n" +
    "<p>If the problem persists, please get in touch.</p>\n" +
    "</body>\n" +
    "</html>"

  const StatusServiceUnavailable: int := 503

  /** What a RoundTrip returns: a response with a nil error, an error whose
      dynamic type is *net.OpError, or any other error. */
  datatype TransportResult = Ok(resp: ResponseValue) | OpError(cause: string) | OtherError(cause: string)

  /** The synthetic response: status 503, the page as body, and neither a Header
      map nor a ContentLength (both keep Go's zero values). */
  function UnavailableResponse(): (v: ResponseValue)
    ensures v.statusCode == 503
    ensures v.body.data == Message && v.body.readError.None? && v.body.closeError.None?
    ensures v.header.None? && v.contentLength == 0
  {
    ResponseValue(StatusServiceUnavailable, BufferBody(Message), 0, None)
  }

  /** ConnectionErrorHandler.RoundTrip applied to the inner transport's result:
      an *net.OpError never escapes and becomes the 503 page with a nil error;
      a success and every other error pass through unchanged. */
  function RoundTrip(inner: TransportResult): (r: TransportResult)
    ensures !r.OpError?
    ensures inner.OpError? ==>
      && r.Ok?
      && r.resp.statusCode == 503
      && r.resp.body.data == Message
      && r.resp.body.readError.None? && r.resp.body.closeError.None?
      && r.resp.header.None? && r.resp.contentLength == 0
    ensures !inner.OpError? ==> r == inner
  {
    if inner.OpError? then Ok(UnavailableResponse()) else inner
  }

  /** The page itself contains `background` (in its CSS), so the response rewrite
      would not deliver it verbatim. */
  lemma MessageContainsPattern()
    ensures Replace.Contains(Message)
  {
    var line := "\tbackground-color: #f1f6f8;\n";
    assert line == "\t" + Replace.Pattern + "-color: #f1f6f8;\n";
    Replace.OccursInConcat("\t" + Replace.Pattern, "-color: #f1f6f8;\n", 1);
    var page :=
      "<!DOCTYPE html><html>\n" + "<head>\n" + "<title>\n" + "Backend Unavailable\n" + "</title>\n" +
      "<style>\n" + "body {\n" + "\tfont-family: fantasy;\n" + "\ttext-align: center;\n" +
      "\tpadding-top: 20%;\n";
    var k := |page| + 1;
    Replace.OccursInConcat(page, line, 1);
    page := page + line;
    // the lines after the style rule leave the occurrence where it is
    Replace.OccursInConcat(page, "}\n", k);
    page := page + "}\n";
    Replace.OccursInConcat(page, "</style>\n", k);
    page := page + "</style>\n";
    Replace.OccursInConcat(page, "</head>\n", k);
    page := page + "</head>\n";
    Replace.OccursInConcat(page, "<body>\n", k);
    page := page + "<body>\n";
    Replace.OccursInConcat(page, "<h1>503 Backend Unavailable</h1>\n", k);
    page := page + "<h1>503 Backend Unavailable</h1>\n";
    Replace.OccursInConcat(page, "<p>Sorry, we&lsquo;re having a brief problem. You can retry.</p>\n", k);
    page := page + "<p>Sorry, we&lsquo;re having a brief problem. You can retry.</p>\n";
    Replace.OccursInConcat(page, "<p>If the problem persists, please get in touch.</p>\n", k);
    page := page + "<p>If the problem persists, please get in touch.</p>\n";
    Replace.OccursInConcat(page, "</body>\n", k);
    page := page + "</body>\n";
    Replace.OccursInConcat(page, "</html>", k);
    page := page + "</html>";
    assert page == Message;
    assert Replace.OccursAt(Message, k);
  }

  /** As written, the 503 response reaches rewriteBody (the startup proxy's
      ModifyResponse) with a nil Header map, and rewriteBody's Header.Set on it
      panics: the page is never sent. */
  lemma UnavailablePageAborts(cause: string)
    ensures Rewrite.Rewrite(RoundTrip(OpError(cause)).resp).0 == Rewrite.NilHeaderPanic
  {
  }

  /** The synthetic response with an empty Header map, as `make(http.Header)`
      would give it. */
  function UnavailableResponseWithHeader(): (v: ResponseValue)
    ensures v.header == Some(map[])
    ensures v.(header := None) == UnavailableResponse()
  {
    UnavailableResponse().(header := Some(map[]))
  }

  /** RoundTrip with the header map allocated; otherwise the same decision. */
  function RoundTripWithHeader(inner: TransportResult): (r: TransportResult)
    ensures !r.OpError?
    ensures inner.OpError? ==> r == Ok(UnavailableResponseWithHeader())
    // it differs from RoundTrip only in the header map of the synthetic response
    ensures r.Ok? <==> RoundTrip(inner).Ok?
    ensures r.Ok? ==> r.resp.(header := RoundTrip(inner).resp.header) == RoundTrip(inner).resp
    ensures !inner.OpError? ==> r == inner
  {
    if inner.OpError? then Ok(UnavailableResponseWithHeader()) else inner
  }

  /** With the header map allocated, an unreachable backend yields a 503 whose
      body is the page (with its `background` capitalised), whose length headers
      match that body, and which carries the two policy headers. */
  lemma UnavailablePageDelivered(cause: string)
    ensures var r := Rewrite.Rewrite(RoundTripWithHeader(OpError(cause)).resp);
      && r.0 == Rewrite.Done
      && r.1.statusCode == 503
      && r.1.body.data == Replace.Capitalise(Message)
      && r.1.body.data != Message
      && r.1.contentLength == |Message|
      && Rewrite.LengthConsistent(r.1)
      && r.1.header.value.Keys == {"Content-Length", "Content-Security-Policy", "Access-Control-Allow-Origin"}
      && Values(r.1.header.value, "Content-Security-Policy") == [Rewrite.ContentSecurityPolicy]
      && Values(r.1.header.value, "Access-Control-Allow-Origin") == ["*"]
  {
    var v := RoundTripWithHeader(OpError(cause)).resp;
    Rewrite.RewriteSucceeds(v);
    MessageContainsPattern();
    Replace.CapitaliseChanges(Message);
  }
}
