/**
 * The API response trait: which HTTP status and which body a controller's
 * `respond` produces, the error envelope of `fail`, and the helpers that look
 * their status up in the `$codes` table. The response object is a value here;
 * the formatter that serialises non-string data is a parameter.
 */
module ResponseTrait {
  import opened Wrappers
  import opened Php

  /** Response data: PHP's `null`, a string, an integer or an array of keyed entries. */
  datatype Payload = PNull | PStr(s: string) | PInt(n: int) | PList(entries: seq<(string, Payload)>)

  /** The body set on the response: `setJSON`, `setXML` or `setBody`. */
  datatype Body = Json(json: string) | Xml(xml: string) | Plain(text: Option<string>)

  /** The response `respond` returns: its body, `setStatusCode($status, $message)`. */
  datatype Response = Response(body: Body, status: int, reason: string)

  /** The status codes every controller starts with (section 15 of RFC 9110;
      429 is defined in section 4 of RFC 6585). */
  const DefaultCodes: map<string, int> := map[
    "created" := 201,
    "deleted" := 200,
    "updated" := 200,
    "no_content" := 204,
    "invalid_request" := 400,
    "unsupported_response_type" := 400,
    "invalid_scope" := 400,
    "temporarily_unavailable" := 400,
    "invalid_grant" := 400,
    "invalid_credentials" := 400,
    "invalid_refresh" := 400,
    "no_data" := 400,
    "invalid_data" := 400,
    "access_denied" := 401,
    "unauthorized" := 401,
    "invalid_client" := 401,
    "forbidden" := 403,
    "resource_not_found" := 404,
    "not_acceptable" := 406,
    "resource_exists" := 409,
    "conflict" := 409,
    "resource_gone" := 410,
    "payload_too_large" := 413,
    "unsupported_media_type" := 415,
    "too_many_requests" := 429,
    "server_error" := 500,
    "unsupported_grant_type" := 501,
    "not_implemented" := 501
  ]

  /** The status `respond` sends: no data and no status is a 404; no data with a
      status keeps it; data with no status, or with status 0, is a 200. */
  function RespondStatus(data: Payload, status: Option<int>): (s: int)
    ensures status.Some? && status.value != 0 ==> s == status.value
    ensures status.None? ==> s == if data.PNull? then 404 else 200
    ensures data.PNull? && status.Some? ==> s == status.value
    ensures !data.PNull? && status == Some(0) ==> s == 200
    ensures !data.PNull? ==> s != 0
  {
    if data.PNull? && status.None? then 404
    else if data.PNull? then status.value
    else if status.None? || status.value == 0 then 200
    else status.value
  }

  /** The body `respond` sets, given the format in force when it was called. */
  function RespondBody(format: string, data: Payload, formatter: Payload -> string): (b: Body)
    ensures b == Plain(None) <==> data.PNull?
    ensures data.PStr? ==> b == Plain(Some(data.s))
    ensures b.Json? ==> format == "json" && b.json == formatter(data)
    ensures b.Xml? ==> format == "xml" && b.xml == formatter(data)
    ensures !data.PNull? && !data.PStr? ==>
              (b.Json? <==> format == "json") && (b.Xml? <==> format == "xml")
    ensures !data.PNull? && !data.PStr? && format != "json" && format != "xml" ==>
              b == Plain(Some(formatter(data)))
  {
    if data.PNull? then Plain(None)
    else if data.PStr? then Plain(Some(data.s))
    else if format == "json" then Json(formatter(data))
    else if format == "xml" then Xml(formatter(data))
    else Plain(Some(formatter(data)))
  }

  /** The value stored under `key` in an array. */
  function Lookup(entries: seq<(string, Payload)>, key: string): Option<Payload>
  {
    if |entries| == 0 then None
    else if entries[0].0 == key then Some(entries[0].1)
    else Lookup(entries[1..], key)
  }

  /** The array `fail` responds with. */
  function FailEnvelope(messages: Payload, status: int, code: Option<string>): (e: Payload)
    ensures e.PList?
    ensures Lookup(e.entries, "status") == Some(PInt(status))
    ensures Lookup(e.entries, "error") == Some(if code.Some? then PStr(code.value) else PInt(status))
    ensures var m := Lookup(e.entries, "messages");
            && m.Some? && m.value.PList?
            && (messages.PList? ==> m.value == messages)
            && (!messages.PList? ==> Lookup(m.value.entries, "error") == Some(messages))
  {
    var wrapped := if messages.PList? then messages else PList([("error", messages)]);
    var entries := [("status", PInt(status)), ("error", if code.Some? then PStr(code.value) else PInt(status)),
                    ("messages", wrapped)];
    assert Lookup(entries[2..], "messages") == Some(wrapped);
    assert Lookup(entries[1..], "messages") == Some(wrapped);
    PList(entries)
  }

  /** `fail` reports its status twice: in the envelope, and as the response's
      status, except that a status of 0 is sent as 200. */
  lemma FailStatusAgrees(messages: Payload, status: int, code: Option<string>)
    ensures var s := RespondStatus(FailEnvelope(messages, status, code), Some(status));
            && (status != 0 ==> s == status && Lookup(FailEnvelope(messages, status, code).entries, "status") == Some(PInt(s)))
            && (status == 0 ==> s == 200)
  {
  }

  /** The default table's entries for the `respond*` helpers: the standard success codes. */
  lemma DefaultRespondCodes()
    ensures DefaultCodes["created"] == 201 && DefaultCodes["deleted"] == 200
    ensures DefaultCodes["updated"] == 200 && DefaultCodes["no_content"] == 204
  {
  }

  /** The default table's entries for the `fail*` helpers: the standard error codes. */
  lemma DefaultFailCodes()
    ensures DefaultCodes["unauthorized"] == 401 && DefaultCodes["forbidden"] == 403
    ensures DefaultCodes["resource_not_found"] == 404 && DefaultCodes["invalid_data"] == 400
    ensures DefaultCodes["resource_exists"] == 409 && DefaultCodes["resource_gone"] == 410
    ensures DefaultCodes["too_many_requests"] == 429 && DefaultCodes["server_error"] == 500
  {
  }

  /** With the default table every `respond*` helper sends its own standard
      status, whatever the data. */
  lemma DefaultHelperStatuses(data: Payload)
    ensures RespondStatus(data, Some(DefaultCodes["created"])) == 201
    ensures RespondStatus(data, Some(DefaultCodes["deleted"])) == 200
    ensures RespondStatus(data, Some(DefaultCodes["updated"])) == 200
    ensures RespondStatus(PNull, Some(DefaultCodes["no_content"])) == 204
  {
    DefaultRespondCodes();
  }

  /** The keys the `fail*` helpers look their status up under. */
  const FailHelperKeys: set<string> := {"unauthorized", "forbidden", "resource_not_found", "invalid_data",
                                        "resource_exists", "resource_gone", "too_many_requests", "server_error"}

  /** Every `fail*` helper's key is in the default table, with an error code. */
  lemma FailHelperKeysAreErrors()
    ensures forall key :: key in FailHelperKeys ==> key in DefaultCodes && 400 <= DefaultCodes[key] < 600
  {
    DefaultFailCodes();
  }

  /** With the default table every `fail*` helper sends its own error code, at
      least 400, both as the status and inside the envelope. */
  lemma DefaultFailStatuses(messages: Payload, code: Option<string>)
    ensures forall key :: key in FailHelperKeys ==>
              && RespondStatus(FailEnvelope(messages, DefaultCodes[key], code), Some(DefaultCodes[key])) == DefaultCodes[key] >= 400
              && Lookup(FailEnvelope(messages, DefaultCodes[key], code).entries, "status") == Some(PInt(DefaultCodes[key]))
  {
    FailHelperKeysAreErrors();
  }

  /** The format names `setResponseFormat` accepts are case-insensitive: for
      data that is neither null nor a string, any spelling of "json" picks the
      JSON body, any spelling of "xml" the XML body, and every other name the
      formatter's text as a plain body. */
  lemma FormatNameCaseInsensitive(a: string, data: Payload, formatter: Payload -> string)
    ensures !data.PNull? && !data.PStr? && EqualsIgnoreCase(a, "json") ==>
              RespondBody(ToLower(a), data, formatter) == Json(formatter(data))
    ensures !data.PNull? && !data.PStr? && EqualsIgnoreCase(a, "xml") ==>
              RespondBody(ToLower(a), data, formatter) == Xml(formatter(data))
    ensures !data.PNull? && !data.PStr? && !EqualsIgnoreCase(a, "json") && !EqualsIgnoreCase(a, "xml") ==>
              RespondBody(ToLower(a), data, formatter) == Plain(Some(formatter(data)))
  {
    LowerNameIs(a, "json");
    LowerNameIs(a, "xml");
  }

  /** For a lower-case name, `strtolower($a)` equals it exactly when `$a` spells it in any case. */
  lemma LowerNameIs(a: string, name: string)
    requires forall i :: 0 <= i < |name| ==> LowerChar(name[i]) == name[i]
    ensures ToLower(a) == name <==> EqualsIgnoreCase(a, name)
  {
    if EqualsIgnoreCase(a, name) {
      assert ToLower(a) == name;
    }
  }

  class Responder {
    var format: string
    var codes: map<string, int>

    /** A controller using the trait: JSON output and the given table (the
        default one unless the controller overrides it). */
    constructor(codes: map<string, int>)
      ensures format == "json" && this.codes == codes
    {
      format := "json";
      this.codes := codes;
    }

    /** `format`: a string is sent as it is and switches the format to `html`;
        anything else goes through the formatter. */
    method Format(data: Payload, formatter: Payload -> string) returns (output: string)
      modifies this`format
      ensures format == if data.PStr? then "html" else old(format)
      ensures output == if data.PStr? then data.s else formatter(data)
    {
      if data.PStr? {
        format := "html";
        return data.s;
      }
      output := formatter(data);
    }

    /** `respond`. */
    method Respond(data: Payload, status: Option<int>, message: string, formatter: Payload -> string)
      returns (r: Response)
      modifies this`format
      ensures format == if data.PStr? then "html" else old(format)
      ensures r == Response(RespondBody(old(format), data, formatter), RespondStatus(data, status), message)
    {
      var code: int;
      var output: Option<string>;
      if data.PNull? && status.None? {
        code := 404;
        output := None;
        var _ := Format(data, formatter);
      } else if data.PNull? {
        code := status.value;
        output := None;
        var _ := Format(data, formatter);
      } else {
        code := if status.None? || status.value == 0 then 200 else status.value;
        var formatted := Format(data, formatter);
        output := Some(formatted);
      }
      if output.Some? {
        if format == "json" {
          return Response(Json(output.value), code, message);
        }
        if format == "xml" {
          return Response(Xml(output.value), code, message);
        }
      }
      r := Response(Plain(output), code, message);
    }

    /** `fail`: the envelope, sent with the same status. */
    method Fail(messages: Payload, status: int, code: Option<string>, customMessage: string,
                formatter: Payload -> string)
      returns (r: Response)
      modifies this`format
      ensures format == old(format)
      ensures r == Response(RespondBody(old(format), FailEnvelope(messages, status, code), formatter),
                            if status == 0 then 200 else status, customMessage)
    {
      r := Respond(FailEnvelope(messages, status, code), Some(status), customMessage, formatter);
    }

    /** A `respond*` helper: its entry of `$codes`, or `null` when the table lacks it. */
    method RespondWith(key: string, data: Payload, message: string, formatter: Payload -> string)
      returns (r: Response)
      modifies this`format
      ensures format == if data.PStr? then "html" else old(format)
      ensures r == Response(RespondBody(old(format), data, formatter),
                            RespondStatus(data, if key in codes then Some(codes[key]) else None), message)
    {
      r := Respond(data, if key in codes then Some(codes[key]) else None, message, formatter);
    }

    method RespondCreated(data: Payload, message: string, formatter: Payload -> string) returns (r: Response)
      modifies this`format
      ensures format == if data.PStr? then "html" else old(format)
      ensures r == Response(RespondBody(old(format), data, formatter),
                            RespondStatus(data, if "created" in codes then Some(codes["created"]) else None), message)
    {
      r := RespondWith("created", data, message, formatter);
    }

    method RespondDeleted(data: Payload, message: string, formatter: Payload -> string) returns (r: Response)
      modifies this`format
      ensures format == if data.PStr? then "html" else old(format)
      ensures r == Response(RespondBody(old(format), data, formatter),
                            RespondStatus(data, if "deleted" in codes then Some(codes["deleted"]) else None), message)
    {
      r := RespondWith("deleted", data, message, formatter);
    }

    method RespondUpdated(data: Payload, message: string, formatter: Payload -> string) returns (r: Response)
      modifies this`format
      ensures format == if data.PStr? then "html" else old(format)
      ensures r == Response(RespondBody(old(format), data, formatter),
                            RespondStatus(data, if "updated" in codes then Some(codes["updated"]) else None), message)
    {
      r := RespondWith("updated", data, message, formatter);
    }

    /** `respondNoContent`: no body, the `no_content` status. */
    method RespondNoContent(message: string, formatter: Payload -> string) returns (r: Response)
      modifies this`format
      ensures format == old(format)
      ensures r == Response(Plain(None), RespondStatus(PNull, if "no_content" in codes then Some(codes["no_content"]) else None), message)
    {
      r := RespondWith("no_content", PNull, message, formatter);
    }

    /** A `fail*` helper: `fail` with its entry of `$codes`, which must exist
        because `fail` takes a non-null status. */
    method FailWith(key: string, description: Payload, code: Option<string>, message: string,
                    formatter: Payload -> string)
      returns (r: Response)
      requires key in codes
      modifies this`format
      ensures format == old(format)
      ensures r == Response(RespondBody(old(format), FailEnvelope(description, codes[key], code), formatter),
                            if codes[key] == 0 then 200 else codes[key], message)
    {
      r := Fail(description, codes[key], code, message, formatter);
    }

    method FailUnauthorized(description: string, code: Option<string>, message: string, formatter: Payload -> string)
      returns (r: Response)
      requires "unauthorized" in codes
      modifies this`format
      ensures format == old(format)
      ensures r == Response(RespondBody(old(format), FailEnvelope(PStr(description), codes["unauthorized"], code), formatter),
                            if codes["unauthorized"] == 0 then 200 else codes["unauthorized"], message)
    {
      r := FailWith("unauthorized", PStr(description), code, message, formatter);
    }

    method FailForbidden(description: string, code: Option<string>, message: string, formatter: Payload -> string)
      returns (r: Response)
      requires "forbidden" in codes
      modifies this`format
      ensures format == old(format)
      ensures r == Response(RespondBody(old(format), FailEnvelope(PStr(description), codes["forbidden"], code), formatter),
                            if codes["forbidden"] == 0 then 200 else codes["forbidden"], message)
    {
      r := FailWith("forbidden", PStr(description), code, message, formatter);
    }

    method FailNotFound(description: string, code: Option<string>, message: string, formatter: Payload -> string)
      returns (r: Response)
      requires "resource_not_found" in codes
      modifies this`format
      ensures format == old(format)
      ensures r == Response(RespondBody(old(format), FailEnvelope(PStr(description), codes["resource_not_found"], code), formatter),
                            if codes["resource_not_found"] == 0 then 200 else codes["resource_not_found"], message)
    {
      r := FailWith("resource_not_found", PStr(description), code, message, formatter);
    }

    /** `failValidationError` (one message) and `failValidationErrors` (a message
        or an array of them) both use `invalid_data`. */
    method FailValidationErrors(errors: Payload, code: Option<string>, message: string, formatter: Payload -> string)
      returns (r: Response)
      requires "invalid_data" in codes
      modifies this`format
      ensures format == old(format)
      ensures r == Response(RespondBody(old(format), FailEnvelope(errors, codes["invalid_data"], code), formatter),
                            if codes["invalid_data"] == 0 then 200 else codes["invalid_data"], message)
    {
      r := FailWith("invalid_data", errors, code, message, formatter);
    }

    method FailResourceExists(description: string, code: Option<string>, message: string, formatter: Payload -> string)
      returns (r: Response)
      requires "resource_exists" in codes
      modifies this`format
      ensures format == old(format)
      ensures r == Response(RespondBody(old(format), FailEnvelope(PStr(description), codes["resource_exists"], code), formatter),
                            if codes["resource_exists"] == 0 then 200 else codes["resource_exists"], message)
    {
      r := FailWith("resource_exists", PStr(description), code, message, formatter);
    }

    method FailResourceGone(description: string, code: Option<string>, message: string, formatter: Payload -> string)
      returns (r: Response)
      requires "resource_gone" in codes
      modifies this`format
      ensures format == old(format)
      ensures r == Response(RespondBody(old(format), FailEnvelope(PStr(description), codes["resource_gone"], code), formatter),
                            if codes["resource_gone"] == 0 then 200 else codes["resource_gone"], message)
    {
      r := FailWith("resource_gone", PStr(description), code, message, formatter);
    }

    method FailTooManyRequests(description: string, code: Option<string>, message: string, formatter: Payload -> string)
      returns (r: Response)
      requires "too_many_requests" in codes
      modifies this`format
      ensures format == old(format)
      ensures r == Response(RespondBody(old(format), FailEnvelope(PStr(description), codes["too_many_requests"], code), formatter),
                            if codes["too_many_requests"] == 0 then 200 else codes["too_many_requests"], message)
    {
      r := FailWith("too_many_requests", PStr(description), code, message, formatter);
    }

    method FailServerError(description: string, code: Option<string>, message: string, formatter: Payload -> string)
      returns (r: Response)
      requires "server_error" in codes
      modifies this`format
      ensures format == old(format)
      ensures r == Response(RespondBody(old(format), FailEnvelope(PStr(description), codes["server_error"], code), formatter),
                            if codes["server_error"] == 0 then 200 else codes["server_error"], message)
    {
      r := FailWith("server_error", PStr(description), code, message, formatter);
    }

    /** `setResponseFormat`: the name lower-cased; `null` reads as "". */
    method SetResponseFormat(format: Option<string>) returns (self: Responder)
      modifies this`format
      ensures this.format == if format.Some? then ToLower(format.value) else ""
      ensures self == this
    {
      this.format := if format.Some? then ToLower(format.value) else "";
      self := this;
    }
  }
}
