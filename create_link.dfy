/** The `POST /api/create-link` handler: it keys the caller by the first
    forwarded address, asks the rate limiter, validates the JSON body against
    the request schema, writes one share record with a ten-minute expiry to
    the key-value store and answers with the new share id. */
module CreateLink {
  import opened Common

  // ---------------------------------------------------------------------
  // Constants of the handler and of the limiter it is configured with
  // ---------------------------------------------------------------------

  /** Client key used when no forwarded address is given. */
  const FallbackIp: string := "127.0.0.1"

  /** Lifetime of a share: `10 * 60` seconds for the store's `ex` option. */
  const ShareTtlSeconds: nat := 10 * 60

  /** The same lifetime in milliseconds, added to the clock for `expiresAt`. */
  const ShareTtlMillis: nat := 10 * 60 * 1000

  /** `nanoid(10)`: length of a share id. */
  const ShareIdLength: nat := 10

  /** Namespace of share keys in the store. */
  const SharePrefix: string := "share:"

  /** The limiter's configuration, a sliding window of 10 requests per 10 s;
      the window itself lives in the limiter and is not modelled. */
  const RateLimitRequests: nat := 10
  const RateLimitWindowSeconds: nat := 10

  const LimitHeader: string := "X-RateLimit-Limit"
  const RemainingHeader: string := "X-RateLimit-Remaining"
  const ResetHeader: string := "X-RateLimit-Reset"

  const TooManyRequestsMessage: string := "Too many requests. Please try again later."
  const RateLimitCode: string := "RATE_LIMIT_EXCEEDED"
  const InvalidBodyMessage: string := "Invalid request body"
  const InvalidRequestCode: string := "INVALID_REQUEST"
  const InvalidDataMessage: string := "Invalid request data"
  const ValidationErrorCode: string := "VALIDATION_ERROR"
  const InternalErrorMessage: string := "Internal server error"

  // ---------------------------------------------------------------------
  // Data
  // ---------------------------------------------------------------------

  /** A parsed JSON value; numbers are kept as integers. */
  datatype Json =
    | JNull
    | JBool(b: bool)
    | JNumber(n: int)
    | JString(s: string)
    | JArray(items: seq<Json>)
    | JObject(fields: map<string, Json>)

  /** What `req.json()` produced: a value, or a thrown parse error. */
  datatype BodyParse = Malformed | Parsed(json: Json)

  /** The limiter's answer for one key. */
  datatype RateLimitDecision = RateLimitDecision(success: bool, limit: nat, remaining: nat, reset: nat)

  /** `ratelimit.limit(ip)` either answers or throws (backend unreachable). */
  datatype LimitOutcome = Decided(decision: RateLimitDecision) | LimiterFailed

  /** One validated `{url, filename}` entry. */
  datatype FileRef = FileRef(url: string, filename: string)

  /** The share data written to the store; times are milliseconds. */
  datatype ShareRecord = ShareRecord(files: seq<FileRef>, createdAt: int, expiresAt: int)

  /** A store entry: the record and the expiry (`ex`, seconds) it was set with. */
  datatype StoredShare = StoredShare(record: ShareRecord, ttlSeconds: nat)

  datatype ResponseBody =
    | ErrorBody(message: string, code: Option<string>)
    | SuccessBody(shareId: string)

  /** A JSON response: status, body and the headers set by the handler. */
  datatype Response = Response(status: nat, body: ResponseBody, headers: map<string, string>)

  /** What the `catch` block can receive. */
  datatype Failure = ZodFailure | OtherFailure

  // ---------------------------------------------------------------------
  // Client key
  // ---------------------------------------------------------------------

  /** `s.split(",")[0]`: the text before the first comma, or all of `s`. */
  function FirstField(s: string): (r: string)
    ensures r <= s
    ensures ',' !in r
    ensures |r| < |s| ==> s[|r|] == ','
  {
    if s == [] || s[0] == ',' then [] else [s[0]] + FirstField(s[1..])
  }

  /** The rate-limit key: the first forwarded address when the header is
      present and non-empty (JavaScript truthiness), else the loopback. */
  function ClientKey(forwarded: Option<string>): (ip: string)
    ensures forwarded.None? || forwarded.value == [] ==> ip == FallbackIp
    ensures forwarded.Some? && forwarded.value != [] ==> ip <= forwarded.value && ',' !in ip
  {
    if forwarded.Some? && forwarded.value != [] then FirstField(forwarded.value) else FallbackIp
  }

  /** Any comma-free prefix that ends where `s` ends or at a comma is the
      text `FirstField` returns. */
  lemma FirstFieldUnique(s: string, p: string)
    requires p <= s && ',' !in p
    requires |p| == |s| || s[|p|] == ','
    ensures FirstField(s) == p
  {
  }

  /** The key is exactly the first comma-separated entry of the header. */
  lemma ClientKeyIsFirstEntry(first: string, rest: string)
    requires ',' !in first
    ensures ClientKey(Some(first + [','] + rest)) == first
    ensures first != [] ==> ClientKey(Some(first)) == first
  {
    var h := first + [','] + rest;
    assert first <= h && h[|first|] == ',';
    FirstFieldUnique(h, first);
    if first != [] {
      FirstFieldUnique(first, first);
    }
  }

  // ---------------------------------------------------------------------
  // Rate-limit headers
  // ---------------------------------------------------------------------

  /** The three headers built from the limiter's decision. */
  function RateLimitHeaders(d: RateLimitDecision): (h: map<string, string>)
    ensures h.Keys == {LimitHeader, RemainingHeader, ResetHeader}
    ensures forall k :: k in h ==> AllDigits(h[k])
    ensures ParseDecimal(h[LimitHeader]) == d.limit
    ensures ParseDecimal(h[RemainingHeader]) == d.remaining
    ensures ParseDecimal(h[ResetHeader]) == d.reset
  {
    ParseDecimalOfDecimal(d.limit);
    ParseDecimalOfDecimal(d.remaining);
    ParseDecimalOfDecimal(d.reset);
    map[LimitHeader := Decimal(d.limit),
        RemainingHeader := Decimal(d.remaining),
        ResetHeader := Decimal(d.reset)]
  }

  /** Requests with different decisions are answered with different headers. */
  lemma RateLimitHeadersInjective(d1: RateLimitDecision, d2: RateLimitDecision)
    requires RateLimitHeaders(d1) == RateLimitHeaders(d2)
    ensures d1.limit == d2.limit && d1.remaining == d2.remaining && d1.reset == d2.reset
  {
  }

  // ---------------------------------------------------------------------
  // Request schema: { files: [{ url: string().url(), filename: string().min(1) }].min(1) }
  // ---------------------------------------------------------------------

  /** One element of `files` is an object whose `url` is a string the URL
      check accepts and whose `filename` is a non-empty string. */
  predicate ValidEntry(j: Json, isUrl: string -> bool) {
    && j.JObject?
    && "url" in j.fields && j.fields["url"].JString? && isUrl(j.fields["url"].s)
    && "filename" in j.fields && j.fields["filename"].JString? && |j.fields["filename"].s| >= 1
  }

  /** The whole body is an object with a non-empty array `files` of valid entries. */
  predicate ValidBody(j: Json, isUrl: string -> bool) {
    && j.JObject?
    && "files" in j.fields && j.fields["files"].JArray?
    && |j.fields["files"].items| >= 1
    && forall i :: 0 <= i < |j.fields["files"].items| ==> ValidEntry(j.fields["files"].items[i], isUrl)
  }

  /** The `{url, filename}` a valid entry stands for; other keys are stripped. */
  function EntryRef(j: Json, isUrl: string -> bool): FileRef
    requires ValidEntry(j, isUrl)
  {
    FileRef(j.fields["url"].s, j.fields["filename"].s)
  }

  /** Parses the elements of `files` one by one, failing on the first bad one. */
  function ParseEntries(items: seq<Json>, isUrl: string -> bool): (r: Option<seq<FileRef>>)
    ensures r.Some? <==> forall i :: 0 <= i < |items| ==> ValidEntry(items[i], isUrl)
    ensures r.Some? ==> |r.value| == |items|
    ensures r.Some? ==> forall i :: 0 <= i < |items| ==> r.value[i] == EntryRef(items[i], isUrl)
  {
    if items == [] then Some([])
    else if !ValidEntry(items[0], isUrl) then None
    else
      match ParseEntries(items[1..], isUrl)
      case None => None
      case Some(rest) => Some([EntryRef(items[0], isUrl)] + rest)
  }

  /** `createLinkSchema.safeParse(body)`: the validated file list, or None. */
  function Validate(body: Json, isUrl: string -> bool): (r: Option<seq<FileRef>>)
    ensures r.Some? <==> ValidBody(body, isUrl)
    ensures r.Some? ==> |r.value| == |body.fields["files"].items| >= 1
    ensures r.Some? ==> forall i :: 0 <= i < |r.value| ==>
                          r.value[i] == EntryRef(body.fields["files"].items[i], isUrl)
  {
    if body.JObject? && "files" in body.fields && body.fields["files"].JArray?
       && |body.fields["files"].items| >= 1
    then ParseEntries(body.fields["files"].items, isUrl)
    else None
  }

  // ---------------------------------------------------------------------
  // Share ids, keys and records
  // ---------------------------------------------------------------------

  predicate IsUrlSafeChar(c: char) {
    ('A' <= c <= 'Z') || ('a' <= c <= 'z') || ('0' <= c <= '9') || c == '_' || c == '-'
  }

  /** What `nanoid(10)` returns: ten symbols of the URL-safe alphabet. */
  predicate IsShareId(id: string) {
    |id| == ShareIdLength && forall i :: 0 <= i < |id| ==> IsUrlSafeChar(id[i])
  }

  /** The store key of a share. */
  function ShareKey(shareId: string): (k: string)
    ensures |k| == |SharePrefix| + |shareId|
    ensures k[..|SharePrefix|] == SharePrefix && k[|SharePrefix|..] == shareId
  {
    SharePrefix + shareId
  }

  /** Distinct ids never share a store key. */
  lemma ShareKeyInjective(a: string, b: string)
    requires ShareKey(a) == ShareKey(b)
    ensures a == b
  {
  }

  /** The record written for a validated file list at time `now` (ms). */
  function NewShareRecord(files: seq<FileRef>, now: int): (rec: ShareRecord)
    ensures rec.files == files
    ensures rec.createdAt == now && rec.expiresAt - rec.createdAt == ShareTtlMillis
    // the record expires when the store lets the key lapse
    ensures rec.expiresAt == rec.createdAt + ShareTtlSeconds * 1000
  {
    ShareRecord(files, now, now + 10 * 60 * 1000)
  }

  // ---------------------------------------------------------------------
  // Responses
  // ---------------------------------------------------------------------

  /** The `catch` block: a ZodError is answered with 400, anything else with
      a generic 500; neither carries rate-limit headers. */
  function OnThrow(f: Failure): (resp: Response)
    ensures resp.headers == map[]
    ensures f.ZodFailure? <==> resp.status == 400
    ensures f.ZodFailure? ==> resp == Response(400, ErrorBody(InvalidDataMessage, Some(ValidationErrorCode)), map[])
    ensures f.OtherFailure? ==> resp == Response(500, ErrorBody(InternalErrorMessage, None), map[])
  {
    match f
    case ZodFailure => Response(400, ErrorBody(InvalidDataMessage, Some(ValidationErrorCode)), map[])
    case OtherFailure => Response(500, ErrorBody(InternalErrorMessage, None), map[])
  }

  /** A 2xx status; the handler writes to the store exactly when it answers one. */
  predicate IsOkStatus(status: nat) {
    200 <= status <= 299
  }

  // ---------------------------------------------------------------------
  // The store and the handler
  // ---------------------------------------------------------------------

  /** The key-value store as the handler sees it. */
  class ShareStore {
    var entries: map<string, StoredShare>

    constructor ()
      ensures entries == map[]
    {
      entries := map[];
    }

    /** One `POST` request. `forwarded` is the `x-forwarded-for` header,
        `limiter` the rate limiter, `body` what `req.json()` produced,
        `isUrl` the URL check of the schema, `freshId` the value of
        `nanoid(10)`, `now` the clock (ms), and `storeAvailable` says whether
        the store write succeeds. */
    method Post(forwarded: Option<string>, limiter: string -> LimitOutcome, body: BodyParse,
                isUrl: string -> bool, freshId: string, now: int, storeAvailable: bool)
      returns (resp: Response)
      requires IsShareId(freshId)
      modifies this
      // limiter unreachable: generic 500, nothing written
      ensures limiter(ClientKey(forwarded)).LimiterFailed? ==>
                resp == OnThrow(OtherFailure) && entries == old(entries)
      // throttled: 429 before the body is read, nothing written
      ensures limiter(ClientKey(forwarded)).Decided? && !limiter(ClientKey(forwarded)).decision.success ==>
                && resp == Response(429, ErrorBody(TooManyRequestsMessage, Some(RateLimitCode)),
                                    RateLimitHeaders(limiter(ClientKey(forwarded)).decision))
                && entries == old(entries)
      // allowed, body is not JSON: generic 500, nothing written
      ensures limiter(ClientKey(forwarded)).Decided? && limiter(ClientKey(forwarded)).decision.success
              && body.Malformed? ==>
                resp == OnThrow(OtherFailure) && entries == old(entries)
      // allowed, body fails the schema: 400, nothing written
      ensures limiter(ClientKey(forwarded)).Decided? && limiter(ClientKey(forwarded)).decision.success
              && body.Parsed? && !ValidBody(body.json, isUrl) ==>
                && resp == Response(400, ErrorBody(InvalidBodyMessage, Some(InvalidRequestCode)),
                                    RateLimitHeaders(limiter(ClientKey(forwarded)).decision))
                && entries == old(entries)
      // allowed and valid, but the store write throws: generic 500
      ensures limiter(ClientKey(forwarded)).Decided? && limiter(ClientKey(forwarded)).decision.success
              && body.Parsed? && ValidBody(body.json, isUrl) && !storeAvailable ==>
                resp == OnThrow(OtherFailure) && entries == old(entries)
      // created: exactly one key written, 201 {shareId}
      ensures limiter(ClientKey(forwarded)).Decided? && limiter(ClientKey(forwarded)).decision.success
              && body.Parsed? && ValidBody(body.json, isUrl) && storeAvailable ==>
                && resp == Response(201, SuccessBody(freshId),
                                    RateLimitHeaders(limiter(ClientKey(forwarded)).decision))
                && entries == old(entries)[ShareKey(freshId) :=
                     StoredShare(NewShareRecord(Validate(body.json, isUrl).value, now), ShareTtlSeconds)]
      // a write happens exactly on the 2xx answer, and never touches another key
      ensures !IsOkStatus(resp.status) ==> entries == old(entries)
      ensures IsOkStatus(resp.status) ==> resp.status == 201 && ShareKey(freshId) in entries
      ensures forall k :: k != ShareKey(freshId) ==>
                (k in entries <==> k in old(entries)) && (k in entries ==> entries[k] == old(entries)[k])
      // only the 500 answers lack the rate-limit headers
      ensures resp.status != 500 ==>
                limiter(ClientKey(forwarded)).Decided?
                && resp.headers == RateLimitHeaders(limiter(ClientKey(forwarded)).decision)
      ensures resp.status == 500 ==> resp.headers == map[]
      // a created share's id is ten URL-safe symbols
      ensures resp.body.SuccessBody? ==> resp.status == 201 && IsShareId(resp.body.shareId)
      // the VALIDATION_ERROR branch of the catch block is never taken
      ensures resp.body.ErrorBody? ==> resp.body.code != Some(ValidationErrorCode)
    {
      var ip := ClientKey(forwarded);
      var outcome := limiter(ip);
      if outcome.LimiterFailed? {
        return OnThrow(OtherFailure);
      }
      var d := outcome.decision;
      var rateLimitHeaders := RateLimitHeaders(d);
      if !d.success {
        return Response(429, ErrorBody(TooManyRequestsMessage, Some(RateLimitCode)), rateLimitHeaders);
      }
      if body.Malformed? {
        return OnThrow(OtherFailure);
      }
      var validation := Validate(body.json, isUrl);
      if validation.None? {
        return Response(400, ErrorBody(InvalidBodyMessage, Some(InvalidRequestCode)), rateLimitHeaders);
      }
      var files := validation.value;
      var shareId := freshId;
      var shareData := NewShareRecord(files, now);
      if !storeAvailable {
        return OnThrow(OtherFailure);
      }
      entries := entries[ShareKey(shareId) := StoredShare(shareData, ShareTtlSeconds)];
      return Response(201, SuccessBody(shareId), rateLimitHeaders);
    }
  }
}
