/** The per-message pipeline of the HTTP proxy: the two header sanitizers,
    the case-insensitive header lookup, the HTML hook injection, the request
    and response filters, and the audit events they append. */
module ProxyFilters {
  import opened Text
  import opened Http
  import opened HeaderPolicy

  datatype Option<T> = None | Some(value: T)

  /** The literal marker the injection looks for and replaces. */
  const HeadMarker: string := "</head>"

  /** A request returned by the proxy script, with the message that its
      conversion back to an `http.Request` yields. */
  datatype JSRequest = JSRequest(verb: string, hostname: string, path: string, body: string, converted: Request)

  /** A response returned by the proxy script, with the message that its
      conversion back to an `http.Response` yields. */
  datatype JSResponse = JSResponse(body: string, converted: Response)

  /** What a script callback hands back: a rewritten request, a response, both or neither. */
  datatype ScriptReply = ScriptReply(jsReq: Option<JSRequest>, jsRes: Option<JSResponse>)

  /** The proxy script's two callbacks, as functions of what they are shown. */
  datatype Script = Script(onRequest: ReqView -> ScriptReply, onResponse: ResView -> ScriptReply)

  /** The new headers and body the session stripper leaves on a response. */
  datatype ResponsePatch = ResponsePatch(header: Fields, body: Body)

  /** The session stripper: `preprocess` may answer a request with a redirect,
      `process` may change any header and the body of a response. */
  datatype Stripper = Stripper(preprocess: ReqView -> Response?, process: ResView -> ResponsePatch)

  datatype AuditRecord = AuditRecord(to: string, verb: string, host: string, path: string, size: int)

  datatype Event = Event(tag: string, record: AuditRecord)

  /** The event for a request the script rewrote: the client's host, and the
      new request's method, host name, path and body length. */
  function SpoofedRequestEvent(proxyName: string, client: RequestLine, js: JSRequest): Event {
    Event(proxyName + ".spoofed-request",
          AuditRecord(FirstField(client.remoteAddr, ':'), js.verb, js.hostname, js.path, |js.body|))
  }

  /** The event for a response the script supplied: the client's host, the
      original request's method, host and path, and the new body's length. */
  function SpoofedResponseEvent(proxyName: string, client: RequestLine, js: JSResponse): Event {
    Event(proxyName + ".spoofed-response",
          AuditRecord(FirstField(client.remoteAddr, ':'), client.verb, client.host, client.path, |js.body|))
  }

  /** The response as the response script sees it: sanitized, then patched by the stripper. */
  function AfterStripper(stripper: Stripper, v: ResView): ResView {
    var sanitized := v.(header := SanitizeResponse(v.header));
    var patch := stripper.process(sanitized);
    sanitized.(header := patch.header, body := patch.body)
  }

  /** The response a configured script substitutes for `v`, if any. */
  function ScriptResponse(script: Option<Script>, v: ResView): Option<JSResponse> {
    if script.Some? then script.value.onResponse(v).jsRes else None
  }

  /** Whatever the lookup of `Content-Type` answers contains `text/html`. */
  ghost predicate HtmlTyped(m: Fields) {
    forall v :: LookupResult(m, "Content-Type", v) ==> Contains(v, "text/html")
  }

  /** Whatever the lookup of `Content-Type` answers lacks `text/html`. */
  ghost predicate NotHtmlTyped(m: Fields) {
    forall v :: LookupResult(m, "Content-Type", v) ==> !Contains(v, "text/html")
  }

  /** What the injection stage promises in both versions, for a response
      whose body was `before` when the stage began. */
  ghost predicate InjectionStage(hook: string, res: Response, before: Body, out: Response)
    reads res, res.header, out, out.header
  {
    var m := res.header.fields;
    var read := ReadAll(before);
    // not eligible: the response goes on as it is
    && (hook == "" || NotHtmlTyped(m) ==> out == res && res.body == before)
    // eligible, readable and marked: a new response is built
    && (hook != "" && HtmlTyped(m) && read.Content? && Contains(read.text, HeadMarker) ==> out != res)
    // a new response keeps the status and request, replaces every marker
    // by the hook, and carries every original header value
    && (out != res ==>
          && read.Content? && Contains(read.text, HeadMarker)
          && out.request == res.request && out.statusCode == res.statusCode
          && out.body == Open(Content(ReplaceAll(read.text, HeadMarker, hook)))
          && exists ct :: HasValueFor(m, "Content-Type", ct) && Contains(ct, "text/html")
                          && out.header.fields == AddedAll(map["Content-Type" := [ct]], m))
  }

  class HttpProxy {
    const name: string
    /** The markup that replaces every `</head>` of an HTML page; "" disables injection. */
    const jsHook: string
    const stripper: Stripper
    /** The proxy script, when one is loaded. */
    const script: Option<Script>
    /** The session's event sink, append-only. */
    var events: seq<Event>

    constructor (name: string, jsHook: string, stripper: Stripper, script: Option<Script>)
      ensures this.name == name && this.jsHook == jsHook
      ensures this.stripper == stripper && this.script == script
      ensures events == []
    {
      this.name := name;
      this.jsHook := jsHook;
      this.stripper := stripper;
      this.script := script;
      events := [];
    }

    method FixRequestHeaders(req: Request)
      modifies req.header
      ensures req.header.fields == SanitizeRequest(old(req.header.fields))
    {
      req.header.Del("Accept-Encoding");
      req.header.Del("If-None-Match");
      req.header.Del("If-Modified-Since");
      req.header.Del("Upgrade-Insecure-Requests");
      req.header.Set("Pragma", "no-cache");
    }

    method OnRequestFilter(req: Request) returns (outReq: Request, outRes: Response?)
      modifies req.header, this`events
      ensures req.header.fields == SanitizeRequest(old(req.header.fields))
      ensures var seen := req.View();
              var redirect := stripper.preprocess(seen);
              var reply := if script.Some? then script.value.onRequest(seen) else ScriptReply(None, None);
              if redirect != null then
                outReq == req && outRes == redirect && events == old(events)
              else if reply.jsReq.Some? then
                && outReq == reply.jsReq.value.converted && outRes == null
                && events == old(events) + [SpoofedRequestEvent(name, req.Line(), reply.jsReq.value)]
              else if reply.jsRes.Some? then
                && outReq == req && outRes == reply.jsRes.value.converted
                && events == old(events) + [SpoofedResponseEvent(name, req.Line(), reply.jsRes.value)]
              else
                outReq == req && outRes == null && events == old(events)
    {
      FixRequestHeaders(req);
      var redirect := stripper.preprocess(req.View());
      if redirect != null {
        // a redirect that makes a session cookie expire
        return req, redirect;
      }
      if script.None? {
        return req, null;
      }
      var reply := script.value.onRequest(req.View());
      if reply.jsReq.Some? {
        LogRequestAction(req, reply.jsReq.value);
        return reply.jsReq.value.converted, null;
      } else if reply.jsRes.Some? {
        LogResponseAction(req, reply.jsRes.value);
        return req, reply.jsRes.value.converted;
      }
      return req, null;
    }

    method FixResponseHeaders(res: Response)
      modifies res.header
      ensures res.header.fields == SanitizeResponse(old(res.header.fields))
    {
      ghost var m := res.header.fields;
      res.header.Del("Content-Security-Policy-Report-Only");
      res.header.Del("Content-Security-Policy");
      res.header.Del("Strict-Transport-Security");
      res.header.Del("Public-Key-Pins");
      res.header.Del("Public-Key-Pins-Report-Only");
      res.header.Del("X-Frame-Options");
      res.header.Del("X-Content-Type-Options");
      res.header.Del("X-Webkit-Csp");
      res.header.Del("X-Content-Security-Policy");
      res.header.Del("X-Download-Options");
      res.header.Del("X-Permitted-Cross-Domain-Policies");
      res.header.Del("X-Xss-Protection");
      SanitizeResponseDeletes(m, res.header.fields);
      res.header.Set("Allow-Access-From-Same-Origin", "*");
      res.header.Set("Access-Control-Allow-Origin", "*");
      res.header.Set("Access-Control-Allow-Methods", "*");
      res.header.Set("Access-Control-Allow-Headers", "*");
    }

    /** The first value of some header whose name equals `name` up to case, or "". */
    method GetHeader(res: Response, name: string) returns (value: string)
      ensures LookupResult(res.header.fields, name, value)
    {
      var fields := res.header.fields;
      var wanted := Lower(name);
      var pending := fields.Keys;
      while pending != {}
        invariant pending <= fields.Keys
        invariant forall k :: k in fields && k !in pending && Lower(k) == wanted ==> fields[k] == []
        decreases pending
      {
        var key :| key in pending;
        var values := fields[key];
        for i := 0 to |values|
          invariant i > 0 ==> Lower(key) != wanted
        {
          if Lower(key) == wanted {
            return values[i];
          }
        }
        pending := pending - {key};
      }
      return "";
    }

    method IsScriptInjectable(res: Response) returns (ok: bool, contentType: string)
      ensures ok ==> jsHook != "" && Contains(contentType, "text/html")
      ensures ok ==> HasValueFor(res.header.fields, "Content-Type", contentType)
      ensures !ok ==> contentType == ""
      ensures jsHook != "" && HtmlTyped(res.header.fields) ==> ok
      ensures NotHtmlTyped(res.header.fields) ==> !ok
    {
      if jsHook == "" {
        return false, "";
      }
      var ct := GetHeader(res, "Content-Type");
      if Contains(ct, "text/html") {
        return true, ct;
      }
      return false, "";
    }

    /** Reads and closes the body of `res`; when it holds the marker, builds
        the injected response. `raw` hands back the text that was read. */
    method DoScriptInjection(res: Response, cType: string) returns (err: Option<string>, injected: Response?, raw: string)
      modifies res`body
      ensures res.body == Drained
      ensures ReadAll(old(res.body)).ReadFailure? ==>
                err == Some(ReadAll(old(res.body)).reason) && injected == null
      ensures ReadAll(old(res.body)).Content? ==>
                && err == None && raw == ReadAll(old(res.body)).text
                && (injected != null <==> Contains(raw, HeadMarker))
      ensures injected != null ==>
                && fresh(injected)
                && injected.request == res.request && injected.statusCode == res.statusCode
                && injected.body == Open(Content(ReplaceAll(raw, HeadMarker, jsHook)))
                && injected.header.fields == AddedAll(map["Content-Type" := [cType]], res.header.fields)
    {
      var read := ReadAll(res.body);
      res.body := Drained;
      if read.ReadFailure? {
        return Some(read.reason), null, "";
      }
      raw := read.text;
      if !Contains(raw, HeadMarker) {
        return None, null, raw;
      }
      var html := ReplaceAll(raw, HeadMarker, jsHook);
      var newResp := new Response(res.request, cType, res.statusCode, html);
      CopyHeaders(newResp.header, res.header.fields);
      return None, newResp, raw;
    }

    /** `Add`s every value of every key of `src` to `dst`, keys in any order. */
    method CopyHeaders(dst: Header, src: Fields)
      modifies dst
      ensures dst.fields == AddedAll(old(dst.fields), src)
    {
      ghost var init := dst.fields;
      var pending := src.Keys;
      AddedAllNothing(init, src);
      while pending != {}
        invariant pending <= src.Keys
        invariant dst.fields == AddedAll(init, src - pending)
        decreases pending
      {
        var key :| key in pending;
        var values := src[key];
        ghost var before := dst.fields;
        for i := 0 to |values|
          invariant dst.fields == AppendValues(before, key, values[..i])
        {
          AppendValuesStep(before, key, values, i);
          dst.Add(key, values[i]);
        }
        assert values[..|values|] == values;
        AddedAllStep(init, src, pending, key);
        pending := pending - {key};
      }
      assert src - {} == src;
    }

    /** The injection stage of the response filter as written: the body is
        read and closed even when no new response is built. */
    method InjectOrPassAsWritten(res: Response) returns (out: Response)
      modifies res`body
      ensures out != res ==> fresh(out)
      ensures InjectionStage(jsHook, res, old(res.body), out)
      ensures res.body == old(res.body) || res.body == Drained
      ensures jsHook != "" && HtmlTyped(res.header.fields) ==> res.body == Drained
      ensures out != res ==> res.body == Drained
      ensures (&& jsHook != "" && HtmlTyped(res.header.fields) && ReadAll(old(res.body)).Content?
               && !Contains(ReadAll(old(res.body)).text, HeadMarker))
              ==> out == res
    {
      var doInject, cType := IsScriptInjectable(res);
      if doInject {
        var err, injected, _ := DoScriptInjection(res, cType);
        if err.None? && injected != null {
          return injected;
        }
      }
      return res;
    }

    /** The injection stage with the body put back when no new response is
        built: only a body that could not be read is lost. */
    method InjectOrPass(res: Response) returns (out: Response)
      modifies res`body
      ensures out != res ==> fresh(out)
      ensures InjectionStage(jsHook, res, old(res.body), out)
      ensures out != res ==> res.body == Drained
      ensures out == res && res.body != old(res.body) ==>
                res.body == Drained && ReadAll(old(res.body)).ReadFailure?
    {
      var doInject, cType := IsScriptInjectable(res);
      if doInject {
        var err, injected, raw := DoScriptInjection(res, cType);
        if err.Some? {
          return res;
        } else if injected != null {
          return injected;
        }
        res.body := Open(Content(raw));
      }
      return res;
    }

    method OnResponseFilter(res: Response?) returns (out: Response?)
      modifies this`events, res, if res != null then {res.header} else {}
      ensures res == null ==> out == null && events == old(events)
      ensures res != null ==>
                var seen := AfterStripper(stripper, old(res.View()));
                && res.header.fields == seen.header && res.statusCode == seen.statusCode
                && match ScriptResponse(script, seen)
                   case Some(js) =>
                     && out == js.converted && res.body == seen.body
                     && events == old(events) + [SpoofedResponseEvent(name, res.request.Line(), js)]
                   case None =>
                     && out != null && (out != res ==> fresh(out))
                     && InjectionStage(jsHook, res, seen.body, out)
                     && (out != res ==> res.body == Drained)
                     && (out == res && res.body != seen.body ==>
                           res.body == Drained && ReadAll(seen.body).ReadFailure?)
                     && events == old(events)
    {
      if res == null {
        return null;
      }
      FixResponseHeaders(res);
      var patch := stripper.process(res.View());
      res.header.fields := patch.header;
      res.body := patch.body;
      if script.Some? {
        var reply := script.value.onResponse(res.View());
        if reply.jsRes.Some? {
          LogResponseAction(res.request, reply.jsRes.value);
          return reply.jsRes.value.converted;
        }
      }
      out := InjectOrPass(res);
    }

    method LogRequestAction(req: Request, js: JSRequest)
      modifies this`events
      ensures events == old(events) + [SpoofedRequestEvent(name, req.Line(), js)]
    {
      events := events + [SpoofedRequestEvent(name, req.Line(), js)];
    }

    method LogResponseAction(req: Request, js: JSResponse)
      modifies this`events
      ensures events == old(events) + [SpoofedResponseEvent(name, req.Line(), js)]
    {
      events := events + [SpoofedResponseEvent(name, req.Line(), js)];
    }
  }
}

/** Concrete instances of the filters on small messages. */
module FilterScenarios {
  import opened Text
  import opened Http
  import opened HeaderPolicy
  import opened ProxyFilters

  /** A response header in which `Content-Type` is the only key that matches
      it up to case: the lookup answers that key's first value, whatever
      values follow and whatever other keys the header holds. */
  lemma FirstContentType(m: Fields)
    requires "Content-Type" in m && m["Content-Type"] != []
    requires forall k :: k in m && Lower(k) == Lower("Content-Type") ==> k == "Content-Type"
    ensures forall v :: LookupResult(m, "Content-Type", v) ==> v == m["Content-Type"][0]
  {
    assert !NoValueFor(m, "Content-Type");
  }

  /** A page served as `text/html` and then `application/json` is eligible
      for injection: the first value decides. */
  method MultiValuedContentType() returns (ok: bool, contentType: string)
    ensures ok && contentType == "text/html"
  {
    var proxy := new HttpProxy("http.proxy", "<script>1</script></head>",
                               Stripper((v: ReqView) => null, (v: ResView) => ResponsePatch(v.header, v.body)),
                               None);
    var none := new Header(map[]);
    var req := new Request("GET", "example.test", "/", "1.2.3.4:9999", none);
    var res := new Response(req, "text/html", 200, "<p>hi</p>");
    res.header.Add("Content-Type", "application/json");
    assert ["text/html"] + ["application/json"] == ["text/html", "application/json"];
    assert res.header.fields == map["Content-Type" := ["text/html", "application/json"]];
    FirstContentType(res.header.fields);
    assert Contains("text/html", "text/html");
    ok, contentType := proxy.IsScriptInjectable(res);
  }

  /** A client's audit address is its host without the port. */
  lemma ClientHostOfAddress()
    ensures FirstField("1.2.3.4:9999", ':') == "1.2.3.4"
  {
    assert "1.2.3.4" + [':'] + "9999" == "1.2.3.4:9999";
    FirstFieldBeforeSeparator("1.2.3.4", ':', "9999");
  }

  /** A short HTML page without a head section holds no marker. */
  lemma NoMarkerInPage()
    ensures !Contains("<p>hi</p>", HeadMarker)
  {
    var s := "<p>hi</p>";
    forall i | 0 <= i && i + |HeadMarker| <= |s|
      ensures !OccursAt(s, HeadMarker, i)
    {
      assert s[i..i + |HeadMarker|][1] == s[i + 1] != '/';
    }
  }

  /** No marker starts inside `<html><head>`. */
  lemma NoMarkerBeforeHeadEnd(rest: string)
    ensures var s := "<html><head>" + HeadMarker + rest;
            forall i :: 0 <= i < 12 ==> !OccursAt(s, HeadMarker, i)
  {
    var a := "<html><head>";
    var s := a + HeadMarker + rest;
    forall i | 0 <= i < 12
      ensures !OccursAt(s, HeadMarker, i)
    {
      var w := s[i..i + |HeadMarker|];
      if i < 11 {
        assert w[1] == a[i + 1] != '/';
      } else {
        assert w[1] == HeadMarker[0] == '<';
      }
    }
  }

  /** The page's tail holds no marker. */
  lemma NoMarkerInBody()
    ensures !Contains("<body></body></html>", HeadMarker)
  {
    var b := "<body></body></html>";
    forall i | 0 <= i && i + |HeadMarker| <= |b|
      ensures !OccursAt(b, HeadMarker, i)
    {
      var w := b[i..i + |HeadMarker|];
      if i == 6 {
        assert w[2] == b[8] == 'b';
      } else if i == 13 {
        assert w[3] == b[16] == 't';
      } else {
        assert w[1] == b[i + 1] != '/';
      }
    }
  }

  /** The head of a small page gets the hook in place of its `</head>`; a
      hook that ends with the marker thus lands right before it. */
  lemma HookReplacesHeadEnd()
    ensures ReplaceAll("<html><head>" + HeadMarker + "<body></body></html>", HeadMarker, "<script>1</script></head>")
            == "<html><head>" + "<script>1</script></head>" + "<body></body></html>"
  {
    var a, b, hook := "<html><head>", "<body></body></html>", "<script>1</script></head>";
    NoMarkerBeforeHeadEnd(b);
    NoMarkerInBody();
    ReplaceAllFirstOccurrence(a, HeadMarker, b, hook);
    ReplaceAllWithoutMarker(b, HeadMarker, hook);
  }

  /** A rewritten `POST evil.test/x` request with a five-byte body, from
      client `1.2.3.4:9999`, is recorded with the client's host only. */
  method SpoofedRequestScenario(converted: Request) returns (e: Event)
    ensures e.tag == "http.proxy" + ".spoofed-request"
    ensures e.record == AuditRecord("1.2.3.4", "POST", "evil.test", "/x", 5)
  {
    ClientHostOfAddress();
    var client := RequestLine("GET", "origin.test", "/", "1.2.3.4:9999");
    e := SpoofedRequestEvent("http.proxy", client, JSRequest("POST", "evil.test", "/x", "hello", converted));
  }

  /** An HTML page without `</head>` goes back to the client from the
      as-written injection stage with its body already read and closed. */
  method MissingMarkerAsWritten() returns (page: Body, sent: Response)
    ensures page == Open(Content("<p>hi</p>"))
    ensures sent.body == Drained
  {
    var proxy := new HttpProxy("http.proxy", "<script>1</script></head>",
                               Stripper((v: ReqView) => null, (v: ResView) => ResponsePatch(v.header, v.body)),
                               None);
    var none := new Header(map[]);
    var req := new Request("GET", "example.test", "/", "1.2.3.4:9999", none);
    var res := new Response(req, "text/html", 200, "<p>hi</p>");
    page := res.body;
    FirstContentType(res.header.fields);
    assert Contains("text/html", "text/html");
    NoMarkerInPage();
    sent := proxy.InjectOrPassAsWritten(res);
  }

  /** The same page leaves the corrected injection stage with its body intact. */
  method MissingMarkerCorrected() returns (page: Body, sent: Response)
    ensures page == Open(Content("<p>hi</p>"))
    ensures sent.body == page
  {
    var proxy := new HttpProxy("http.proxy", "<script>1</script></head>",
                               Stripper((v: ReqView) => null, (v: ResView) => ResponsePatch(v.header, v.body)),
                               None);
    var none := new Header(map[]);
    var req := new Request("GET", "example.test", "/", "1.2.3.4:9999", none);
    var res := new Response(req, "text/html", 200, "<p>hi</p>");
    page := res.body;
    FirstContentType(res.header.fields);
    NoMarkerInPage();
    sent := proxy.InjectOrPass(res);
  }
}
