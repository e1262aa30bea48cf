/** backend/server.js: the CORS origin check applied to every request, the 404
    answer for unmatched routes and the 500 answer of the error handler. */
module Server {
  import opened Wrappers
  import opened Strings
  import opened Http

  const LocalHost := "localhost"
  const LoopbackIp := "127.0.0.1"

  /** The origins allowed when CORS_ORIGIN is unset (line 20):
      `http://localhost` and `http://127.0.0.1`. */
  const DefaultOrigins: seq<string> := ["http://" + LocalHost, "http://" + LoopbackIp]

  /** `process.env.CORS_ORIGIN?.split(',') || [...]`: the comma-separated
      setting, or the defaults when it is unset. A set but empty setting gives
      the one-entry list `[""]`, because an array is truthy. */
  function AllowedOrigins(setting: Option<string>): (list: seq<string>)
    ensures |list| >= 1 && (setting.Some? ==> NoSeparator(list, ','))
    ensures setting.None? ==> list == DefaultOrigins
    ensures setting.Some? ==> Join(list, ',') == setting.value
  {
    match setting
    case None => DefaultOrigins
    case Some(v) =>
      JoinSplit(v, ',');
      Split(v, ',')
  }

  /** An origin that contains `localhost` or `127.0.0.1` anywhere. */
  predicate LocalLooking(origin: string) {
    Contains(origin, LocalHost) || Contains(origin, LoopbackIp)
  }

  /** The `origin` callback (lines 19-30): a request without an Origin header,
      or one whose origin looks local, is allowed whatever the setting;
      otherwise the origin must equal one entry of the list exactly. */
  function CorsAllows(setting: Option<string>, origin: Field): (ok: bool)
    ensures !Present(origin) ==> ok
    ensures Present(origin) && LocalLooking(origin.value) ==> ok
    ensures Present(origin) && !LocalLooking(origin.value) ==> (ok <==> origin.value in AllowedOrigins(setting))
  {
    if !Present(origin) || LocalLooking(origin.value) then true
    else origin.value in AllowedOrigins(setting)
  }

  /** The error handler (lines 59-66). */
  function InternalError(): Response {
    Fail(500, "Internal server error", "SERVER_ERROR")
  }

  /** The callback's `new Error('Not allowed by CORS')` goes to the error
      handler, so a refused origin is answered 500; an allowed one reaches the
      routes (None). */
  function CorsGate(setting: Option<string>, origin: Field): (r: Option<Response>)
    ensures r.None? <==> CorsAllows(setting, origin)
    ensures r.Some? ==> r.value == InternalError() && r.value.status == 500
  {
    if CorsAllows(setting, origin) then None else Some(InternalError())
  }

  /** The 404 handler (lines 50-56), reached by a request no route matched. */
  function RouteNotFound(): (r: Response)
    ensures r.status == 404 && r.body.Failure? && r.body.code == "NOT_FOUND"
  {
    Fail(404, "Route not found", "NOT_FOUND")
  }

  /** Every entry of a configured comma-separated list is allowed, whatever it
      is: the list is read back exactly as it was written. */
  lemma ListedOriginAllowed(entries: seq<string>, k: nat)
    requires |entries| >= 1 && NoSeparator(entries, ',') && k < |entries| && entries[k] != ""
    ensures CorsAllows(Some(Join(entries, ',')), Some(entries[k]))
  {
    SplitJoin(entries, ',');
  }

  /** An origin that is neither local-looking nor an exact entry of the
      configured list is refused, even when it only extends an entry. */
  lemma UnlistedOriginRefused(entries: seq<string>, origin: string)
    requires |entries| >= 1 && NoSeparator(entries, ',')
    requires origin != "" && !LocalLooking(origin) && origin !in entries
    ensures CorsGate(Some(Join(entries, ',')), Some(origin)) == Some(InternalError())
  {
    SplitJoin(entries, ',');
  }

  /** The substring test lets through any origin that merely mentions
      `localhost`, such as `https://localhost.example.org`, whatever the list. */
  lemma LocalLookingAlwaysAllowed(setting: Option<string>, before: string, after: string)
    ensures CorsAllows(setting, Some(before + LocalHost + after))
  {
    var o := before + LocalHost + after;
    assert o[|before|..|before| + |LocalHost|] == LocalHost;
    assert OccursAt(o, LocalHost, |before|);
  }

  /** With CORS_ORIGIN unset the default list adds nothing: both defaults look
      local already, so exactly the local-looking origins (and requests with no
      origin) are allowed. */
  lemma DefaultListAddsNothing(origin: Field)
    ensures CorsAllows(None, origin) <==> !Present(origin) || LocalLooking(origin.value)
  {
    if Present(origin) && origin.value in DefaultOrigins {
      var o := origin.value;
      if o == "http://" + LocalHost {
        assert o[7..7 + |LocalHost|] == LocalHost;
        assert OccursAt(o, LocalHost, 7);
      } else {
        assert o == "http://" + LoopbackIp;
        assert o[7..7 + |LoopbackIp|] == LoopbackIp;
        assert OccursAt(o, LoopbackIp, 7);
      }
    }
  }

  /** A set but empty CORS_ORIGIN lists only the empty string, which no
      present origin equals: only local-looking origins get through. */
  lemma EmptySettingListsNothing(origin: Field)
    ensures AllowedOrigins(Some("")) == [""]
    ensures CorsAllows(Some(""), origin) <==> !Present(origin) || LocalLooking(origin.value)
  {
  }
}
