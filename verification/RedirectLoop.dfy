/**
 * The redirect and retry loop of a client request
 * (backend/uploads/b78a0d07cb434963a6c7c7ef26cd3d1e_client.py, `ClientSession._request`).
 *
 * What the handler answers is a script of replies, one for each call; a script
 * that runs out leaves the request waiting. URL parsing and joining, netrc and
 * base-URL settings are parameters.
 */
module RedirectLoop {
  import opened Common

  datatype Origin = Origin(scheme: string, host: string, port: int)

  datatype Url = Url(origin: Origin, creds: Option<string>, rest: string)

  /** Credentials for a request, by where they come from. */
  datatype Auth = Caller | InUrl(creds: string, origin: Origin) | Default | Netrc(host: string)

  /** The headers the loop looks at, with all their values. */
  datatype Headers = Headers(contentLength: seq<string>, authorization: seq<string>, cookie: seq<string>,
                             proxyAuthorization: seq<string>)

  /** What a Location leads to from a given URL. */
  datatype Target = NotAUrl | NotHttp | NoOrigin | To(url: Url)

  datatype Failure =
    | ConnectorFailure | ClientOsError | ServerDisconnected | OtherClientError | OsError(timeout: bool) | Other

  datatype Reply =
    | Failed(failure: Failure)
    | Response(status: int, verb: string, location: Option<string>, uri: Option<string>, consumed: bool)

  datatype Config = Config(allowRedirects: bool, maxRedirects: int, retryConnection: bool, trustEnv: bool,
                           hasDefault: bool, base: Option<Origin>, netrc: string -> bool,
                           resolve: (Url, string) -> Target)

  /** What the caller asks for. */
  datatype Request = Request(verb: string, url: Url, auth: bool, cookies: bool, headers: Headers, body: bool,
                             params: bool)

  /** One call of the handler; `creds` are those its URL was written with, which are not sent as part of it. */
  datatype Sent = Sent(verb: string, url: Url, creds: Option<string>, auth: Option<Auth>, cookies: bool,
                       headers: Headers, body: bool, params: bool)

  datatype Error =
    | InvalidUrl | InvalidUrlRedirect | NonHttpRedirect
    | AuthWithUrlCredentials | AuthWithHeader
    | TooManyRedirects | ConsumedBody | FromHandler(failure: Failure) | WrappedOsError

  /** A response is named by the number of the call it answers. */
  datatype Outcome = Returned(response: nat) | Raised(error: Error)

  /** The variables of the loop. */
  datatype Loop = Loop(url: Url, auth: Option<Auth>, cookies: bool, headers: Headers, verb: string, body: bool,
                       params: bool, redirects: nat, retry: bool)

  /** Waiting for the handler, or finished; `open` are the responses not yet released or closed. */
  datatype Machine =
    | Awaiting(s: Loop, sent: seq<Sent>, open: set<nat>)
    | Finished(outcome: Outcome, sent: seq<Sent>, open: set<nat>)

  // ----------------------------------------------------------------- operations

  const GET: string := "GET"

  predicate Idempotent(verb: string)
  {
    verb in {"GET", "HEAD", "OPTIONS", "TRACE", "PUT", "DELETE"}
  }

  predicate IsRedirect(status: int) { status in {301, 302, 303, 307, 308} }

  /** 303 turns everything but HEAD into a GET, 301 and 302 only POST. */
  predicate TurnsIntoGet(reply: Reply)
    requires reply.Response?
  {
    (reply.status == 303 && reply.verb != "HEAD") || (reply.status in {301, 302} && reply.verb == "POST")
  }

  function FirstAuth(auth: Option<Auth>, url: Url, creds: Option<string>, redirects: nat): Option<Auth>
  {
    if auth.None? then (if creds.Some? then Some(InUrl(creds.value, url.origin)) else None)
    else if redirects > 0 && creds.Some? then Some(InUrl(creds.value, url.origin))
    else auth
  }

  /** The caller's credentials, those of the URL, the session's or netrc's, in that order. */
  function ChooseAuth(s: Loop, cfg: Config): Option<Auth>
  {
    var auth := FirstAuth(s.auth, s.url, s.url.creds, s.redirects);
    if auth.Some? then auth
    else if Offered(s.url.origin, cfg) then Some(Default)
    else if cfg.trustEnv && cfg.netrc(s.url.origin.host) then Some(Netrc(s.url.origin.host))
    else None
  }

  function Stripped(url: Url): Url { url.(creds := None) }

  function Prepare(s: Loop, cfg: Config): Option<Error>
  {
    if s.url.origin.host == "" then Some(if s.redirects > 0 then InvalidUrlRedirect else InvalidUrl)
    else if s.redirects == 0 && s.auth.Some? && s.url.creds.Some? then Some(AuthWithUrlCredentials)
    else if ChooseAuth(s, cfg).Some? && s.headers.authorization != [] then Some(AuthWithHeader)
    else None
  }

  function SentFor(s: Loop, cfg: Config): Sent
  {
    Sent(s.verb, Stripped(s.url), s.url.creds, ChooseAuth(s, cfg), s.cookies, s.headers, s.body, s.params)
  }

  /** The top of the loop, up to the call of the handler. */
  function Ask(s: Loop, sent: seq<Sent>, open: set<nat>, cfg: Config): Machine
  {
    var error := Prepare(s, cfg);
    if error.Some? then Finished(Raised(error.value), sent, open)
    else Awaiting(s.(url := Stripped(s.url), auth := ChooseAuth(s, cfg)), sent + [SentFor(s, cfg)], open)
  }

  function Location(reply: Reply): Option<string>
    requires reply.Response?
  {
    if reply.location.Some? && reply.location.value != "" then reply.location else reply.uri
  }

  /** The verb, body and content length of the request that follows a redirect. */
  function Converted(s: Loop, reply: Reply): Loop
    requires reply.Response?
  {
    if TurnsIntoGet(reply) then
      s.(verb := GET, body := false,
         headers := s.headers.(contentLength :=
           if s.headers.contentLength != [] && s.headers.contentLength[0] != "" then s.headers.contentLength[1..]
           else s.headers.contentLength))
    else s
  }

  /** Moving on to another URL: nothing of the caller's secrets crosses to another origin. */
  function Moved(s: Loop, url: Url): Loop
  {
    var s' := s.(url := url, params := false);
    if s.url.origin != url.origin then
      s'.(auth := None, cookies := false,
          headers := s.headers.(authorization := [], cookie := [], proxyAuthorization := []))
    else s'
  }

  /** How a redirect ends the loop, with the responses left open, or what the loop goes on with. */
  datatype Step = Stop(outcome: Outcome, open: set<nat>) | Go(s: Loop)

  /** After a response with a redirect status, when redirects are followed. */
  function Follow(s: Loop, reply: Reply, k: nat, cfg: Config): Step
    requires reply.Response?
  {
    var s := s.(redirects := s.redirects + 1);
    if cfg.maxRedirects != 0 && s.redirects >= cfg.maxRedirects then Stop(Raised(TooManyRedirects), {})
    else if !TurnsIntoGet(reply) && s.body && reply.consumed then Stop(Raised(ConsumedBody), {})
    else if Location(reply).None? then Stop(Returned(k), {k})
    else
      match cfg.resolve(s.url, Location(reply).value)
      case NotAUrl => Stop(Raised(InvalidUrlRedirect), {})
      case NotHttp => Stop(Raised(NonHttpRedirect), {})
      case NoOrigin => Stop(Raised(InvalidUrlRedirect), {})
      case To(url) => Go(Moved(Converted(s, reply), url))
  }

  function Take(step: Step, sent: seq<Sent>, open: set<nat>, cfg: Config): Machine
  {
    match step
    case Stop(outcome, left) => Finished(outcome, sent, open + left)
    case Go(s) => Ask(s, sent, open, cfg)
  }

  function Retryable(f: Failure): bool { f.ClientOsError? || f.ServerDisconnected? }

  /** What the loop does with the answer of the handler. */
  function Handle(s: Loop, reply: Reply, k: nat, cfg: Config): Step
  {
    if reply.Response? then
      if IsRedirect(reply.status) && cfg.allowRedirects then Follow(s, reply, k, cfg) else Stop(Returned(k), {k})
    else if Retryable(reply.failure) && s.retry then Go(s.(retry := false))
    else Stop(Raised(if reply.failure == OsError(false) then WrappedOsError else FromHandler(reply.failure)), {})
  }

  /** The k-th reply. */
  function Feed(m: Machine, reply: Reply, k: nat, cfg: Config): Machine
  {
    if m.Finished? then m else Take(Handle(m.s, reply, k, cfg), m.sent, m.open, cfg)
  }

  function Initial(r: Request, cfg: Config): Loop
  {
    Loop(r.url, if r.auth then Some(Caller) else None, r.cookies, r.headers, r.verb, r.body, r.params, 0,
         cfg.retryConnection && Idempotent(r.verb))
  }

  function Run(r: Request, replies: seq<Reply>, n: nat, cfg: Config): Machine
    requires n <= |replies|
  {
    if n == 0 then Ask(Initial(r, cfg), [], {}, cfg) else Feed(Run(r, replies, n - 1, cfg), replies[n - 1], n - 1, cfg)
  }

  lemma {:induction false} FinishedStays(r: Request, replies: seq<Reply>, m: nat, n: nat, cfg: Config)
    requires m <= n <= |replies| && Run(r, replies, m, cfg).Finished?
    ensures Run(r, replies, n, cfg) == Run(r, replies, m, cfg)
  {
    if m < n {
      FinishedStays(r, replies, m, n - 1, cfg);
    }
  }

  // ------------------------------------------------------------------ termination

  /** One call for each redirect followed, one to start with and one for the retry. */
  ghost predicate Counted(m: Machine, n: nat, first: bool, cfg: Config)
  {
    var max := cfg.maxRedirects;
    match m
    case Awaiting(s, sent, _) =>
      && |sent| == n + 1 == s.redirects + 1 + (if first && !s.retry then 1 else 0)
      && (s.retry ==> first) && (s.redirects > 0 ==> cfg.allowRedirects && (max != 0 ==> s.redirects < max))
    case Finished(_, sent, _) =>
      |sent| <= n + 1 && (Bounded(max, cfg.allowRedirects) ==> |sent| <= MostCalls(cfg) + (if first then 1 else 0))
  }

  predicate Bounded(max: int, allow: bool) { max != 0 || !allow }

  /** One call if redirects are not followed, else one for each that may be followed and the one that is too many. */
  function MostCalls(cfg: Config): nat { if cfg.allowRedirects then Max(cfg.maxRedirects, 1) else 1 }

  lemma FeedIsCounted(m: Machine, reply: Reply, n: nat, first: bool, cfg: Config, m': Machine)
    requires Counted(m, n, first, cfg) && m' == Feed(m, reply, n, cfg)
    ensures Counted(m', n + 1, first, cfg)
  {
    if m.Awaiting? && m'.Awaiting? {
      assert m'.s.redirects + (if m'.s.retry then 0 else 1) == m.s.redirects + (if m.s.retry then 0 else 1) + 1;
    }
  }

  lemma {:induction false} RunIsCounted(r: Request, replies: seq<Reply>, n: nat, cfg: Config)
    requires n <= |replies|
    ensures Counted(Run(r, replies, n, cfg), n, cfg.retryConnection && Idempotent(r.verb), cfg)
  {
    if n > 0 {
      RunIsCounted(r, replies, n - 1, cfg);
      FeedIsCounted(Run(r, replies, n - 1, cfg), replies[n - 1], n - 1, cfg.retryConnection && Idempotent(r.verb), cfg,
                    Run(r, replies, n, cfg));
    }
  }

  /**
   * With max_redirects = N above zero the handler is called at most N + 1 times,
   * N for the redirects and one for the retry; below zero the first redirect fails.
   * Without allow_redirects it is called at most twice, whatever max_redirects is.
   */
  lemma CallsAreBounded(r: Request, replies: seq<Reply>, n: nat, cfg: Config)
    requires n <= |replies| && Bounded(cfg.maxRedirects, cfg.allowRedirects)
    ensures |Run(r, replies, n, cfg).sent| <= MostCalls(cfg) +
            (if cfg.retryConnection && Idempotent(r.verb) then 1 else 0)
    ensures n >= MostCalls(cfg) + 1 ==> Run(r, replies, n, cfg).Finished?
  {
    RunIsCounted(r, replies, n, cfg);
  }

  /** A session in which every location leads to the same place, and a request for that place. */
  function Circular(allow: bool): Config
  {
    Config(allow, 0, false, false, false, None, host => false, (url, location) => To(url))
  }

  const HERE: Url := Url(Origin("http", "h", 80), None, "/")

  /** So some number bounds the calls exactly when max_redirects is not 0 or redirects are not followed. */
  lemma BoundedExactly(max: int, allow: bool)
    ensures Bounded(max, allow) <==> exists b: nat :: NeverMoreThan(b, max, allow)
  {
    if Bounded(max, allow) {
      var b := (if allow then Max(max, 1) else 1) + 1;
      forall cfg: Config, r, replies | cfg.maxRedirects == max && cfg.allowRedirects == allow
        ensures CallsAtMost(b, r, replies, cfg)
      {
        CallsAreBounded(r, replies, |replies|, cfg);
      }
      assert NeverMoreThan(b, max, allow);
    } else {
      forall b: nat ensures !NeverMoreThan(b, max, allow) {
        var r := Request(GET, HERE, false, false, Headers([], [], [], []), false, false);
        var replies := seq(b, i => Response(307, GET, Some("/"), None, false));
        ZeroIsUnbounded(r, replies, b, Circular(true));
        assert !CallsAtMost(b, r, replies, Circular(true));
      }
    }
  }

  ghost predicate NeverMoreThan(b: nat, max: int, allow: bool)
  {
    forall cfg: Config, r, replies | cfg.maxRedirects == max && cfg.allowRedirects == allow ::
      CallsAtMost(b, r, replies, cfg)
  }

  predicate CallsAtMost(b: nat, r: Request, replies: seq<Reply>, cfg: Config)
  {
    |Run(r, replies, |replies|, cfg).sent| <= b
  }

  /** With max_redirects = 0 there is no bound: a server that always redirects is followed for ever. */
  lemma {:induction false} ZeroIsUnbounded(r: Request, replies: seq<Reply>, n: nat, cfg: Config)
    requires n <= |replies| && cfg.maxRedirects == 0 && cfg.allowRedirects && cfg.resolve(r.url, "/") == To(r.url)
    requires Prepare(Initial(r, cfg), cfg).None? && r.url.creds.None?
    requires forall i :: 0 <= i < |replies| ==> replies[i] == Response(307, r.verb, Some("/"), None, false)
    ensures var m := Run(r, replies, n, cfg);
            m.Awaiting? && |m.sent| == n + 1 && m.s.url == r.url && Prepare(m.s, cfg).None?
  {
    if n > 0 {
      ZeroIsUnbounded(r, replies, n - 1, cfg);
      AgainTheSame(Run(r, replies, n - 1, cfg), replies[n - 1], n - 1, cfg, Run(r, replies, n, cfg));
    }
  }

  lemma AgainTheSame(m: Machine, reply: Reply, k: nat, cfg: Config, m': Machine)
    requires cfg.maxRedirects == 0 && cfg.allowRedirects && m.Awaiting? && m.s.url.creds.None? &&
             Prepare(m.s, cfg).None?
    requires reply.Response? && reply.status == 307 && !reply.consumed && reply.location == Some("/")
    requires cfg.resolve(m.s.url, "/") == To(m.s.url) && m' == Feed(m, reply, k, cfg)
    ensures m'.Awaiting? && |m'.sent| == |m.sent| + 1 && m'.s.url == m.s.url && Prepare(m'.s, cfg).None?
  {
    var next := Moved(Converted(m.s.(redirects := m.s.redirects + 1), reply), m.s.url);
    assert next == m.s.(redirects := m.s.redirects + 1, params := false);
    assert ChooseAuth(next, cfg) == ChooseAuth(m.s, cfg);
  }

  // ----------------------------------------------------------- one call to the next

  /** How a call follows from the one before and the reply to it. */
  ghost predicate Linked(a: Sent, reply: Reply, b: Sent, cfg: Config)
  {
    match reply
    case Failed(f) => Retryable(f) && b == a.(creds := None)
    case Response(status, verb, _, _, consumed) =>
      && IsRedirect(status) && cfg.allowRedirects && Location(reply).Some?
      && cfg.resolve(a.url, Location(reply).value) == To(b.url.(creds := b.creds)) && !b.params
      && b.verb == (if TurnsIntoGet(reply) then GET else a.verb)
      && b.body == (a.body && !TurnsIntoGet(reply)) && (b.body ==> !consumed)
      && b.headers.contentLength == (if TurnsIntoGet(reply) && a.headers.contentLength != [] &&
                                        a.headers.contentLength[0] != ""
                                     then a.headers.contentLength[1..] else a.headers.contentLength)
      && Carried(a, b, cfg)
  }

  /** What goes on to the next call, and only to the same origin. */
  ghost predicate Carried(a: Sent, b: Sent, cfg: Config)
  {
    var same := a.url.origin == b.url.origin;
    && b.cookies == (a.cookies && same)
    && b.headers.authorization == (if same then a.headers.authorization else [])
    && b.headers.cookie == (if same then a.headers.cookie else [])
    && b.headers.proxyAuthorization == (if same then a.headers.proxyAuthorization else [])
    && b.auth == (if b.creds.Some? then Some(InUrl(b.creds.value, b.url.origin))
                  else if same then a.auth else OwnAuth(b.url.origin, cfg))
  }

  /** The session's own credentials for an origin, or netrc's. */
  function OwnAuth(origin: Origin, cfg: Config): Option<Auth>
  {
    if Offered(origin, cfg) then Some(Default)
    else if cfg.trustEnv && cfg.netrc(origin.host) then Some(Netrc(origin.host)) else None
  }

  /** The session has credentials of its own, and they are for every origin or for this one. */
  predicate Offered(origin: Origin, cfg: Config)
  {
    cfg.hasDefault && (cfg.base.None? || cfg.base.value == origin)
  }

  /** Credentials that are not the caller's belong to where they are sent. */
  ghost predicate AuthFits(b: Sent, cfg: Config)
  {
    b.auth.Some? ==>
      match b.auth.value
      case Caller => true
      case InUrl(_, origin) => origin == b.url.origin
      case Default => Offered(b.url.origin, cfg)
      case Netrc(host) => host == b.url.origin.host
  }

  /** The variables are those the last call was made with. */
  ghost predicate Matches(s: Loop, last: Sent, cfg: Config)
  {
    && s.url == last.url && s.url.creds.None? && s.url.origin.host != ""
    && last.verb == s.verb && last.auth == s.auth && last.cookies == s.cookies && last.headers == s.headers
    && last.body == s.body && last.params == s.params && s.auth == ChooseAuth(s, cfg)
  }

  ghost predicate SentOk(sent: seq<Sent>, r: Request, replies: seq<Reply>, n: nat, cfg: Config)
  {
    && |sent| <= n + 1 && n <= |replies|
    && (sent != [] ==> sent[0] == SentFor(Initial(r, cfg), cfg))
    && (forall i :: 0 <= i < |sent| - 1 ==> Linked(sent[i], replies[i], sent[i + 1], cfg))
    && (forall i :: 0 <= i < |sent| ==> AuthFits(sent[i], cfg))
  }

  ghost predicate Inv(m: Machine, r: Request, replies: seq<Reply>, n: nat, cfg: Config)
  {
    && SentOk(m.sent, r, replies, n, cfg)
    && (m.Awaiting? ==> |m.sent| == n + 1 && Matches(m.s, m.sent[n], cfg))
  }

  /** A retry makes the same call again. */
  lemma RetryRepeats(s: Loop, last: Sent, cfg: Config)
    requires Matches(s, last, cfg)
    ensures SentFor(s.(retry := false), cfg) == last.(creds := None)
  {
  }

  /** Credentials, cookies and the headers for them are those of the last call. */
  ghost predicate SecretsMatch(s: Loop, last: Sent, cfg: Config)
  {
    && s.url == last.url && s.url.creds.None? && s.redirects > 0
    && last.auth == s.auth == ChooseAuth(s, cfg) && last.cookies == s.cookies
    && last.headers.authorization == s.headers.authorization && last.headers.cookie == s.headers.cookie
    && last.headers.proxyAuthorization == s.headers.proxyAuthorization
  }

  lemma MovedCarries(s: Loop, last: Sent, url: Url, cfg: Config)
    requires SecretsMatch(s, last, cfg)
    ensures Carried(last, SentFor(Moved(s, url), cfg), cfg)
  {
  }

  lemma MovedFits(s: Loop, last: Sent, url: Url, cfg: Config)
    requires SecretsMatch(s, last, cfg) && AuthFits(last, cfg)
    ensures AuthFits(SentFor(Moved(s, url), cfg), cfg)
  {
  }

  lemma FollowLinks(s: Loop, last: Sent, reply: Reply, url: Url, cfg: Config, next: Loop)
    requires Matches(s, last, cfg) && AuthFits(last, cfg)
    requires reply.Response? && IsRedirect(reply.status) && cfg.allowRedirects
    requires Location(reply).Some? && cfg.resolve(s.url, Location(reply).value) == To(url)
    requires !TurnsIntoGet(reply) && s.body ==> !reply.consumed
    requires next == Moved(Converted(s.(redirects := s.redirects + 1), reply), url)
    ensures Linked(last, reply, SentFor(next, cfg), cfg) && AuthFits(SentFor(next, cfg), cfg)
  {
    var converted := Converted(s.(redirects := s.redirects + 1), reply);
    assert SecretsMatch(converted, last, cfg);
    MovedCarries(converted, last, url, cfg);
    MovedFits(converted, last, url, cfg);
  }

  lemma AskMatches(s: Loop, sent: seq<Sent>, open: set<nat>, cfg: Config, m: Machine)
    requires m == Ask(s, sent, open, cfg) && m.Awaiting?
    ensures m.sent == sent + [SentFor(s, cfg)] && Matches(m.s, SentFor(s, cfg), cfg) && m.open == open
  {
  }

  lemma OneMore(sent: seq<Sent>, r: Request, replies: seq<Reply>, n: nat, cfg: Config, next: Sent)
    requires SentOk(sent, r, replies, n, cfg) && |sent| == n + 1 <= |replies|
    requires Linked(sent[n], replies[n], next, cfg) && AuthFits(next, cfg)
    ensures SentOk(sent + [next], r, replies, n + 1, cfg)
  {
  }

  lemma RetryKeeps(m: Machine, r: Request, replies: seq<Reply>, n: nat, cfg: Config, m': Machine)
    requires Inv(m, r, replies, n, cfg) && n < |replies| && m' == Feed(m, replies[n], n, cfg)
    requires m.Awaiting? && replies[n].Failed? && m'.Awaiting?
    ensures Inv(m', r, replies, n + 1, cfg)
  {
    var next := m.s.(retry := false);
    RetryRepeats(m.s, m.sent[n], cfg);
    AskMatches(next, m.sent, m.open, cfg, m');
    OneMore(m.sent, r, replies, n, cfg, SentFor(next, cfg));
  }

  /** When a redirect is followed, and to what. */
  lemma FollowGoes(s: Loop, reply: Reply, k: nat, cfg: Config, next: Loop)
    requires reply.Response? && Follow(s, reply, k, cfg) == Go(next)
    ensures Location(reply).Some? && (!TurnsIntoGet(reply) && s.body ==> !reply.consumed)
    ensures var target := cfg.resolve(s.url, Location(reply).value);
            target.To? && next == Moved(Converted(s.(redirects := s.redirects + 1), reply), target.url)
  {
  }

  lemma OnlyRedirectsGo(s: Loop, reply: Reply, k: nat, cfg: Config, next: Loop)
    requires reply.Response? && Handle(s, reply, k, cfg) == Go(next)
    ensures IsRedirect(reply.status) && cfg.allowRedirects && Follow(s, reply, k, cfg) == Go(next)
  {
  }

  lemma RedirectKeeps(m: Machine, r: Request, replies: seq<Reply>, n: nat, cfg: Config, m': Machine)
    requires Inv(m, r, replies, n, cfg) && n < |replies| && m' == Feed(m, replies[n], n, cfg)
    requires m.Awaiting? && replies[n].Response? && m'.Awaiting?
    ensures Inv(m', r, replies, n + 1, cfg)
  {
    var reply := replies[n];
    var next := Handle(m.s, reply, n, cfg).s;
    var sent := SentFor(next, cfg);
    assert Linked(m.sent[n], reply, sent, cfg) && AuthFits(sent, cfg) by {
      OnlyRedirectsGo(m.s, reply, n, cfg, next);
      FollowGoes(m.s, reply, n, cfg, next);
      FollowLinks(m.s, m.sent[n], reply, cfg.resolve(m.s.url, Location(reply).value).url, cfg, next);
    }
    assert m'.sent == m.sent + [sent] && Matches(m'.s, sent, cfg) by {
      AskMatches(next, m.sent, m.open, cfg, m');
    }
    OneMore(m.sent, r, replies, n, cfg, sent);
  }

  lemma FeedKeeps(m: Machine, r: Request, replies: seq<Reply>, n: nat, cfg: Config, m': Machine)
    requires Inv(m, r, replies, n, cfg) && n < |replies| && m' == Feed(m, replies[n], n, cfg)
    ensures Inv(m', r, replies, n + 1, cfg)
  {
    if m.Finished? || m'.Finished? {
      FinishedSent(m, replies[n], n, cfg);
    } else if replies[n].Failed? {
      RetryKeeps(m, r, replies, n, cfg, m');
    } else {
      RedirectKeeps(m, r, replies, n, cfg, m');
    }
  }

  lemma FinishedSent(m: Machine, reply: Reply, n: nat, cfg: Config)
    ensures Feed(m, reply, n, cfg).Finished? ==> Feed(m, reply, n, cfg).sent == m.sent
  {
  }

  lemma {:induction false} RunKeeps(r: Request, replies: seq<Reply>, n: nat, cfg: Config)
    requires n <= |replies|
    ensures Inv(Run(r, replies, n, cfg), r, replies, n, cfg)
  {
    if n == 0 {
      var s, m := Initial(r, cfg), Run(r, replies, 0, cfg);
      if m.Awaiting? {
        AskMatches(s, [], {}, cfg, m);
        assert AuthFits(SentFor(s, cfg), cfg);
      }
    } else {
      RunKeeps(r, replies, n - 1, cfg);
      FeedKeeps(Run(r, replies, n - 1, cfg), r, replies, n - 1, cfg, Run(r, replies, n, cfg));
    }
  }

  // -------------------------------------------------------------------- whole runs

  /** The whole chain, up to the i-th call, stays on the first URL's origin. */
  ghost predicate OneOrigin(sent: seq<Sent>, i: nat)
    requires i < |sent|
  {
    forall j :: 0 <= j <= i ==> sent[j].url.origin == sent[0].url.origin
  }

  /** No URL up to the i-th call's was written with credentials. */
  ghost predicate NoCreds(sent: seq<Sent>, i: nat)
    requires i < |sent|
  {
    forall j :: 0 <= j <= i ==> sent[j].creds.None?
  }

  /** What a call carries of the first one's secrets. */
  ghost predicate Keeps(sent: seq<Sent>, i: nat)
    requires i < |sent|
  {
    var first, same := sent[0], OneOrigin(sent, i);
    && sent[i].cookies == (first.cookies && same)
    && sent[i].headers.authorization == (if same then first.headers.authorization else [])
    && sent[i].headers.cookie == (if same then first.headers.cookie else [])
    && sent[i].headers.proxyAuthorization == (if same then first.headers.proxyAuthorization else [])
    && (sent[i].auth == Some(Caller) <==> first.auth == Some(Caller) && same && NoCreds(sent, i))
  }

  lemma KeepsStep(sent: seq<Sent>, i: nat, reply: Reply, cfg: Config)
    requires i + 1 < |sent| && Keeps(sent, i) && Linked(sent[i], reply, sent[i + 1], cfg)
    ensures Keeps(sent, i + 1)
  {
    var a, b := sent[i], sent[i + 1];
    assert OneOrigin(sent, i + 1) <==> OneOrigin(sent, i) && a.url.origin == b.url.origin;
    assert NoCreds(sent, i + 1) <==> NoCreds(sent, i) && b.creds.None?;
  }

  lemma {:induction false} AllKeep(sent: seq<Sent>, r: Request, replies: seq<Reply>, n: nat, cfg: Config, i: nat)
    requires SentOk(sent, r, replies, n, cfg) && i < |sent| && (sent[0].auth == Some(Caller) ==> sent[0].creds.None?)
    ensures Keeps(sent, i)
  {
    if i > 0 {
      AllKeep(sent, r, replies, n, cfg, i - 1);
      KeepsStep(sent, i - 1, replies[i - 1], cfg);
    }
  }

  lemma {:induction false} FirstIsSound(r: Request, replies: seq<Reply>, n: nat, cfg: Config)
    requires n <= |replies|
    ensures var sent := Run(r, replies, n, cfg).sent;
            sent != [] ==> sent[0] == SentFor(Initial(r, cfg), cfg) &&
                           (sent[0].auth == Some(Caller) <==> r.auth) && (r.auth ==> sent[0].creds.None?)
  {
    if n > 0 {
      FirstIsSound(r, replies, n - 1, cfg);
      RunKeeps(r, replies, n - 1, cfg);
      RunKeeps(r, replies, n, cfg);
    }
  }

  /**
   * The caller's auth argument, cookies argument, and Authorization, Cookie and
   * Proxy-Authorization headers go exactly to the calls whose whole chain so far
   * shares the first URL's origin; the auth argument also gives way to credentials
   * written in a URL.
   */
  lemma SecretsStayOnOrigin(r: Request, replies: seq<Reply>, n: nat, cfg: Config, i: nat)
    requires n <= |replies| && i < |Run(r, replies, n, cfg).sent|
    ensures var sent := Run(r, replies, n, cfg).sent;
            && sent[0].url == Stripped(r.url)
            && sent[i].cookies == (r.cookies && OneOrigin(sent, i))
            && sent[i].headers.authorization == (if OneOrigin(sent, i) then r.headers.authorization else [])
            && sent[i].headers.cookie == (if OneOrigin(sent, i) then r.headers.cookie else [])
            && sent[i].headers.proxyAuthorization == (if OneOrigin(sent, i) then r.headers.proxyAuthorization else [])
            && (sent[i].auth == Some(Caller) <==> r.auth && OneOrigin(sent, i) && NoCreds(sent, i))
  {
    RunKeeps(r, replies, n, cfg);
    FirstIsSound(r, replies, n, cfg);
    AllKeep(Run(r, replies, n, cfg).sent, r, replies, n, cfg, i);
  }

  /**
   * Credentials from a URL go only to its origin and netrc's only to their host; the
   * session's go only to its base URL's origin, or anywhere if it has no base URL.
   */
  lemma OtherAuthFits(r: Request, replies: seq<Reply>, n: nat, cfg: Config, i: nat)
    requires n <= |replies| && i < |Run(r, replies, n, cfg).sent|
    ensures AuthFits(Run(r, replies, n, cfg).sent[i], cfg)
  {
    RunKeeps(r, replies, n, cfg);
  }

  /** From the k-th call to the i-th the origin stays the same. */
  ghost predicate StaysFrom(sent: seq<Sent>, k: nat, i: nat)
    requires k <= i < |sent|
  {
    forall j :: k <= j <= i ==> sent[j].url.origin == sent[k].url.origin
  }

  ghost predicate NoCredsFrom(sent: seq<Sent>, k: nat, i: nat)
    requires k <= i < |sent|
  {
    forall j :: k <= j <= i ==> sent[j].creds.None?
  }

  /** The first call since the origin changed, or the first of all without credentials of the caller. */
  ghost predicate Fresh(sent: seq<Sent>, k: nat, r: Request)
    requires k < |sent|
  {
    if k == 0 then !r.auth else sent[k - 1].url.origin != sent[k].url.origin
  }

  lemma {:induction false} DefaultSince(sent: seq<Sent>, r: Request, replies: seq<Reply>, n: nat, cfg: Config, k: nat,
                                        i: nat)
    requires SentOk(sent, r, replies, n, cfg) && k <= i < |sent| && StaysFrom(sent, k, i) && Fresh(sent, k, r)
    ensures sent[i].auth == Some(Default) <==> Offered(sent[k].url.origin, cfg) && NoCredsFrom(sent, k, i)
  {
    if k < i {
      DefaultSince(sent, r, replies, n, cfg, k, i - 1);
      assert Linked(sent[i - 1], replies[i - 1], sent[i], cfg);
      assert NoCredsFrom(sent, k, i) <==> NoCredsFrom(sent, k, i - 1) && sent[i].creds.None?;
    } else if k > 0 {
      assert Linked(sent[k - 1], replies[k - 1], sent[k], cfg);
    }
  }

  /**
   * When the session's own credentials are sent: since the last change of origin (or
   * from the start, if the caller gave none) exactly if they are offered to this origin
   * and no URL since then was written with credentials. So a redirect to another
   * origin, which takes the caller's away, puts the session's in their place.
   */
  lemma DefaultExactly(r: Request, replies: seq<Reply>, n: nat, cfg: Config, k: nat, i: nat)
    requires n <= |replies| && k <= i < |Run(r, replies, n, cfg).sent|
    requires StaysFrom(Run(r, replies, n, cfg).sent, k, i) && Fresh(Run(r, replies, n, cfg).sent, k, r)
    ensures var sent := Run(r, replies, n, cfg).sent;
            sent[i].auth == Some(Default) <==> Offered(sent[i].url.origin, cfg) && NoCredsFrom(sent, k, i)
  {
    RunKeeps(r, replies, n, cfg);
    DefaultSince(Run(r, replies, n, cfg).sent, r, replies, n, cfg, k, i);
  }

  /** A redirect to another origin, in a session with credentials and no base URL. */
  lemma DefaultCrossesOrigins(r: Request, other: Url, cfg: Config)
    requires cfg.allowRedirects && (cfg.maxRedirects == 0 || cfg.maxRedirects > 1) && cfg.hasDefault && cfg.base.None?
    requires Prepare(Initial(r, cfg), cfg).None? && r.headers.authorization == []
    requires cfg.resolve(Stripped(r.url), "/") == To(other) && other.creds.None? && other.origin.host != ""
    requires other.origin != r.url.origin
    ensures var m := Run(r, [Response(307, r.verb, Some("/"), None, false)], 1, cfg);
            m.Awaiting? && |m.sent| == 2 && m.sent[1].url == other && m.sent[1].auth == Some(Default)
  {
    var replies := [Response(307, r.verb, Some("/"), None, false)];
    assert Run(r, replies, 0, cfg).Awaiting?;
  }

  /** A later call: the same method or GET, a body only with the same method, parameters only if they were there. */
  ghost predicate Narrows(a: Sent, b: Sent)
  {
    (b.verb == a.verb || b.verb == GET) && (b.body ==> a.body && b.verb == a.verb) && (b.params ==> a.params)
  }

  lemma LinkedNarrows(a: Sent, reply: Reply, b: Sent, cfg: Config)
    requires Linked(a, reply, b, cfg)
    ensures Narrows(a, b)
  {
  }

  lemma {:induction false} AllNarrow(sent: seq<Sent>, r: Request, replies: seq<Reply>, n: nat, cfg: Config, i: nat,
                                     j: nat)
    requires SentOk(sent, r, replies, n, cfg) && i <= j < |sent|
    ensures Narrows(sent[i], sent[j])
  {
    if i < j {
      AllNarrow(sent, r, replies, n, cfg, i, j - 1);
      LinkedNarrows(sent[j - 1], replies[j - 1], sent[j], cfg);
    }
  }

  /** The method only ever changes to GET and then stays; a body once dropped is gone, and so are the parameters. */
  lemma MethodOnlyBecomesGet(r: Request, replies: seq<Reply>, n: nat, cfg: Config, i: nat, j: nat)
    requires n <= |replies| && i <= j < |Run(r, replies, n, cfg).sent|
    ensures Narrows(Run(r, replies, n, cfg).sent[i], Run(r, replies, n, cfg).sent[j])
  {
    RunKeeps(r, replies, n, cfg);
    AllNarrow(Run(r, replies, n, cfg).sent, r, replies, n, cfg, i, j);
  }

  /** Each call follows from the one before by the rule for the reply between them. */
  lemma CallsAreLinked(r: Request, replies: seq<Reply>, n: nat, cfg: Config, i: nat)
    requires n <= |replies| && i + 1 < |Run(r, replies, n, cfg).sent|
    ensures i < n && Linked(Run(r, replies, n, cfg).sent[i], replies[i], Run(r, replies, n, cfg).sent[i + 1], cfg)
  {
    RunKeeps(r, replies, n, cfg);
  }

  ghost predicate Released(m: Machine)
  {
    m.open == if m.Finished? && m.outcome.Returned? then {m.outcome.response} else {}
  }

  lemma FeedReleases(m: Machine, reply: Reply, k: nat, cfg: Config, m': Machine)
    requires Released(m) && m' == Feed(m, reply, k, cfg)
    ensures Released(m')
  {
  }

  /** No response is left open but the one returned. */
  lemma {:induction false} ResponsesAreReleased(r: Request, replies: seq<Reply>, n: nat, cfg: Config)
    requires n <= |replies|
    ensures Released(Run(r, replies, n, cfg))
  {
    if n > 0 {
      ResponsesAreReleased(r, replies, n - 1, cfg);
      FeedReleases(Run(r, replies, n - 1, cfg), replies[n - 1], n - 1, cfg, Run(r, replies, n, cfg));
    }
  }

  // ------------------------------------------------------------- how a request ends

  /** How many of the first n replies are responses, so redirects that were followed. */
  function Followed(replies: seq<Reply>, n: nat): nat
    requires n <= |replies|
  {
    if n == 0 then 0 else Followed(replies, n - 1) + (if replies[n - 1].Response? then 1 else 0)
  }

  /** One of the first n replies is a failure, after which the call was made again. */
  predicate Retried(replies: seq<Reply>, n: nat)
    requires n <= |replies|
  {
    exists i :: 0 <= i < n && replies[i].Failed?
  }

  predicate MayRetry(r: Request, replies: seq<Reply>, n: nat, cfg: Config)
    requires n <= |replies|
  {
    cfg.retryConnection && r.verb in {"GET", "HEAD", "OPTIONS", "TRACE", "PUT", "DELETE"} && !Retried(replies, n)
  }

  lemma FeedCounts(m: Machine, reply: Reply, n: nat, cfg: Config, m': Machine)
    requires m' == Feed(m, reply, n, cfg) && m'.Awaiting?
    ensures m.Awaiting? && m'.s.redirects == m.s.redirects + (if reply.Response? then 1 else 0)
    ensures m'.s.retry == (m.s.retry && reply.Response?) && (reply.Failed? ==> m.s.retry)
  {
  }

  lemma {:induction false} AwaitingState(r: Request, replies: seq<Reply>, n: nat, cfg: Config)
    requires n <= |replies|
    ensures var m := Run(r, replies, n, cfg);
            m.Awaiting? ==> m.s.redirects == Followed(replies, n) && m.s.retry == MayRetry(r, replies, n, cfg)
  {
    if n > 0 {
      AwaitingState(r, replies, n - 1, cfg);
      assert Retried(replies, n) <==> Retried(replies, n - 1) || replies[n - 1].Failed?;
      if Run(r, replies, n, cfg).Awaiting? {
        FeedCounts(Run(r, replies, n - 1, cfg), replies[n - 1], n - 1, cfg, Run(r, replies, n, cfg));
      }
    }
  }

  /** A redirect that is looked at, with k followed before it. */
  predicate Redirects(reply: Reply, cfg: Config)
  {
    reply.Response? && reply.status in {301, 302, 303, 307, 308} && cfg.allowRedirects
  }

  predicate TooMany(reply: Reply, k: nat, cfg: Config)
  {
    Redirects(reply, cfg) && cfg.maxRedirects != 0 && k + 1 >= cfg.maxRedirects
  }

  /** The body would have to be sent again, and cannot. */
  predicate CannotResend(reply: Reply, last: Sent)
    requires reply.Response?
  {
    last.body && reply.consumed &&
    !((reply.status == 303 && reply.verb != "HEAD") || (reply.status in {301, 302} && reply.verb == "POST"))
  }

  predicate Consumed(reply: Reply, k: nat, last: Sent, cfg: Config)
  {
    Redirects(reply, cfg) && !TooMany(reply, k, cfg) && CannotResend(reply, last)
  }

  /** The redirect is one that can be followed, if it names a location. */
  predicate Followable(reply: Reply, k: nat, last: Sent, cfg: Config)
  {
    Redirects(reply, cfg) && !TooMany(reply, k, cfg) && !CannotResend(reply, last)
  }

  /** It leads there. */
  predicate LeadsTo(reply: Reply, k: nat, last: Sent, target: Target, cfg: Config)
  {
    Followable(reply, k, last, cfg) &&
    if reply.location.Some? && reply.location.value != "" then target == cfg.resolve(last.url, reply.location.value)
    else reply.uri.Some? && target == cfg.resolve(last.url, reply.uri.value)
  }

  predicate LeadsNowhere(reply: Reply, k: nat, last: Sent, cfg: Config)
  {
    Followable(reply, k, last, cfg) && (reply.location.None? || reply.location.value == "") && reply.uri.None?
  }

  /** It leads to a URL on the same origin with credentials, while the caller gave an Authorization header. */
  ghost predicate Contradicts(reply: Reply, k: nat, last: Sent, cfg: Config)
  {
    last.headers.authorization != [] &&
    exists url: Url :: LeadsTo(reply, k, last, To(url), cfg) && url.origin == last.url.origin && url.creds.Some? &&
      url.origin.host != ""
  }

  ghost predicate BadUrl(reply: Reply, k: nat, last: Sent, cfg: Config)
  {
    || LeadsTo(reply, k, last, NotAUrl, cfg) || LeadsTo(reply, k, last, NoOrigin, cfg)
    || (exists url: Url :: LeadsTo(reply, k, last, To(url), cfg) && url.origin.host == "")
  }

  /** Each outcome comes under its own condition on the reply, the last call and what went before. */
  ghost predicate EndsRightly(m: Machine, reply: Reply, n: nat, k: nat, last: Sent, retry: bool, cfg: Config)
  {
    && (Ended(m, Returned(n)) <==> reply.Response? && (!Redirects(reply, cfg) || LeadsNowhere(reply, k, last, cfg)))
    && (Ended(m, Raised(TooManyRedirects)) <==> TooMany(reply, k, cfg))
    && (Ended(m, Raised(ConsumedBody)) <==> Consumed(reply, k, last, cfg))
    && (Ended(m, Raised(InvalidUrlRedirect)) <==> BadUrl(reply, k, last, cfg))
    && (Ended(m, Raised(NonHttpRedirect)) <==> LeadsTo(reply, k, last, NotHttp, cfg))
    && (Ended(m, Raised(AuthWithHeader)) <==> Contradicts(reply, k, last, cfg))
    && (Ended(m, Raised(WrappedOsError)) <==> reply == Failed(OsError(false)))
    && (forall f :: Ended(m, Raised(FromHandler(f))) <==>
          reply == Failed(f) && f != OsError(false) && !(retry && (f.ClientOsError? || f.ServerDisconnected?)))
    && (m.Finished? ==> m.outcome == Returned(n) || m.outcome.Raised?)
    && !Ended(m, Raised(InvalidUrl)) && !Ended(m, Raised(AuthWithUrlCredentials))
  }

  predicate Ended(m: Machine, outcome: Outcome) { m.Finished? && m.outcome == outcome }

  /** After a redirect that is followed only the next URL's host, or its credentials, can be wrong. */
  lemma NextIsPrepared(s: Loop, last: Sent, reply: Reply, url: Url, cfg: Config)
    requires Matches(s, last, cfg) && reply.Response?
    requires s.auth.None? || s.headers.authorization == []
    ensures var next := Moved(Converted(s.(redirects := s.redirects + 1), reply), url);
            Prepare(next, cfg) ==
            if url.origin.host == "" then Some(InvalidUrlRedirect)
            else if last.headers.authorization != [] && url.origin == last.url.origin && url.creds.Some? then
              Some(AuthWithHeader)
            else None
  {
  }

  /** What becomes of a redirect that leads to a URL. */
  ghost predicate GoneTo(m: Machine, url: Url, last: Sent)
  {
    var clash := last.headers.authorization != [] && url.origin == last.url.origin && url.creds.Some?;
    if url.origin.host == "" then Ended(m, Raised(InvalidUrlRedirect))
    else if clash then Ended(m, Raised(AuthWithHeader)) else m.Awaiting?
  }

  lemma LeadingGoes(s: Loop, last: Sent, reply: Reply, n: nat, cfg: Config, url: Url)
    requires s.url == last.url && s.body == last.body && LeadsTo(reply, s.redirects, last, To(url), cfg)
    ensures Follow(s, reply, n, cfg) == Go(Moved(Converted(s.(redirects := s.redirects + 1), reply), url))
  {
    assert Location(reply).Some? && cfg.resolve(s.url, Location(reply).value) == To(url);
    assert !TurnsIntoGet(reply) && s.body ==> !reply.consumed;
  }

  lemma UrlGone(s: Loop, last: Sent, reply: Reply, cfg: Config, sent: seq<Sent>, m': Machine, url: Url)
    requires Matches(s, last, cfg) && (s.auth.None? || s.headers.authorization == []) && reply.Response?
    requires m' == Ask(Moved(Converted(s.(redirects := s.redirects + 1), reply), url), sent, {}, cfg)
    ensures GoneTo(m', url, last)
  {
    NextIsPrepared(s, last, reply, url, cfg);
  }

  lemma UrlEnds(reply: Reply, n: nat, k: nat, last: Sent, retry: bool, url: Url, cfg: Config, m: Machine)
    requires LeadsTo(reply, k, last, To(url), cfg) && GoneTo(m, url, last)
    ensures EndsRightly(m, reply, n, k, last, retry, cfg)
  {
    assert forall t :: LeadsTo(reply, k, last, t, cfg) <==> t == To(url);
  }

  /** A redirect that leads to no URL. */
  lemma TargetEnds(s: Loop, last: Sent, reply: Reply, n: nat, cfg: Config, sent: seq<Sent>, m': Machine, target: Target)
    requires Matches(s, last, cfg) && LeadsTo(reply, s.redirects, last, target, cfg) && !target.To?
    requires m' == Take(Follow(s, reply, n, cfg), sent, {}, cfg)
    ensures EndsRightly(m', reply, n, s.redirects, last, s.retry, cfg)
  {
    assert Location(reply).Some? && target == cfg.resolve(last.url, Location(reply).value);
    assert forall t :: LeadsTo(reply, s.redirects, last, t, cfg) <==> t == target;
  }

  lemma FollowEnds(s: Loop, last: Sent, reply: Reply, n: nat, cfg: Config, sent: seq<Sent>, m': Machine)
    requires Matches(s, last, cfg) && (s.auth.None? || s.headers.authorization == [])
    requires reply.Response? && Redirects(reply, cfg)
    requires m' == Take(Follow(s, reply, n, cfg), sent, {}, cfg)
    ensures EndsRightly(m', reply, n, s.redirects, last, s.retry, cfg)
  {
    if Followable(reply, s.redirects, last, cfg) && Location(reply).Some? {
      var target := cfg.resolve(last.url, Location(reply).value);
      if target.To? {
        LeadingGoes(s, last, reply, n, cfg, target.url);
        UrlGone(s, last, reply, cfg, sent, m', target.url);
        UrlEnds(reply, n, s.redirects, last, s.retry, target.url, cfg, m');
      } else {
        TargetEnds(s, last, reply, n, cfg, sent, m', target);
      }
    } else {
      assert forall t :: !LeadsTo(reply, s.redirects, last, t, cfg);
    }
  }

  lemma FeedEnds(s: Loop, last: Sent, reply: Reply, n: nat, cfg: Config, sent: seq<Sent>, m': Machine)
    requires Matches(s, last, cfg) && (s.auth.None? || s.headers.authorization == [])
    requires m' == Feed(Awaiting(s, sent, {}), reply, n, cfg)
    ensures EndsRightly(m', reply, n, s.redirects, last, s.retry, cfg)
  {
    if Redirects(reply, cfg) {
      FollowEnds(s, last, reply, n, cfg, sent, m');
    } else {
      assert forall t :: !LeadsTo(reply, s.redirects, last, t, cfg);
      assert reply.Failed? && Retryable(reply.failure) && s.retry ==> Prepare(s.(retry := false), cfg).None?;
    }
  }

  /** The caller's Authorization header goes with no other credentials. */
  lemma NoTwoAuths(r: Request, replies: seq<Reply>, n: nat, cfg: Config)
    requires n <= |replies|
    ensures var m := Run(r, replies, n, cfg);
            m.Awaiting? ==> m.s.auth.None? || m.s.headers.authorization == []
  {
  }

  /**
   * While the handler is awaited, the next reply ends the request in exactly one way, each under its own
   * condition, and otherwise exactly one more call is made.
   */
  lemma EndsExactly(r: Request, replies: seq<Reply>, n: nat, cfg: Config)
    requires n < |replies| && Run(r, replies, n, cfg).Awaiting?
    ensures var m, m' := Run(r, replies, n, cfg), Run(r, replies, n + 1, cfg);
            && |m.sent| == n + 1
            && EndsRightly(m', replies[n], n, Followed(replies, n), m.sent[n], MayRetry(r, replies, n, cfg), cfg)
            && (if m'.Awaiting? then |m'.sent| == n + 2 && m'.sent[..n + 1] == m.sent else m'.sent == m.sent)
  {
    var m := Run(r, replies, n, cfg);
    AwaitingState(r, replies, n, cfg);
    RunKeeps(r, replies, n, cfg);
    RunKeeps(r, replies, n + 1, cfg);
    ResponsesAreReleased(r, replies, n, cfg);
    NoTwoAuths(r, replies, n, cfg);
    FeedEnds(m.s, m.sent[n], replies[n], n, cfg, m.sent, Run(r, replies, n + 1, cfg));
  }

  /** The first call, or why there is none. */
  lemma StartsExactly(r: Request, replies: seq<Reply>, cfg: Config)
    ensures var m := Run(r, replies, 0, cfg);
            var own := OwnAuth(r.url.origin, cfg);
            if r.url.origin.host == "" then m == Finished(Raised(InvalidUrl), [], {})
            else if r.auth && r.url.creds.Some? then m == Finished(Raised(AuthWithUrlCredentials), [], {})
            else if r.headers.authorization != [] && (r.auth || r.url.creds.Some? || own.Some?) then
              m == Finished(Raised(AuthWithHeader), [], {})
            else
              m.Awaiting? && m.sent ==
                [Sent(r.verb, r.url.(creds := None), r.url.creds,
                      if r.auth then Some(Caller)
                      else if r.url.creds.Some? then Some(InUrl(r.url.creds.value, r.url.origin)) else own,
                      r.cookies, r.headers, r.body, r.params)]
  {
  }

  // ------------------------------------------------------------------------ the loop

  /** The top of the loop: the URL loses its credentials and the request gets its own, or an error. */
  method PrepareCall(before: Loop, cfg: Config) returns (s: Loop, error: Option<Error>)
    ensures error == Prepare(before, cfg)
    ensures error.None? ==> s == before.(url := Stripped(before.url), auth := ChooseAuth(before, cfg))
  {
    s := before;
    var creds := s.url.creds;
    s := s.(url := s.url.(creds := None));
    if s.url.origin.host == "" {
      return s, Some(if s.redirects > 0 then InvalidUrlRedirect else InvalidUrl);
    }
    if s.redirects == 0 && s.auth.Some? && creds.Some? {
      return s, Some(AuthWithUrlCredentials);
    }
    var auth := s.auth;
    if auth.None? || (s.redirects > 0 && creds.Some?) {
      auth := if creds.Some? then Some(InUrl(creds.value, s.url.origin)) else None;
    }
    if auth.None? && cfg.hasDefault && (cfg.base.None? || cfg.base.value == s.url.origin) {
      auth := Some(Default);
    }
    if auth.None? && cfg.trustEnv && cfg.netrc(s.url.origin.host) {
      auth := Some(Netrc(s.url.origin.host));
    }
    if auth.Some? && s.headers.authorization != [] {
      return s, Some(AuthWithHeader);
    }
    s, error := s.(auth := auth), None;
  }

  method Convert(before: Loop, reply: Reply) returns (s: Loop)
    requires reply.Response?
    ensures s == Converted(before, reply)
  {
    s := before;
    if (reply.status == 303 && reply.verb != "HEAD") || (reply.status in {301, 302} && reply.verb == "POST") {
      s := s.(verb := GET, body := false);
      if s.headers.contentLength != [] && s.headers.contentLength[0] != "" {
        s := s.(headers := s.headers.(contentLength := s.headers.contentLength[1..]));
      }
    }
  }

  method MoveTo(before: Loop, url: Url) returns (s: Loop)
    ensures s == Moved(before, url)
  {
    s := before;
    if s.url.origin != url.origin {
      s := s.(auth := None, cookies := false);
      s := s.(headers := s.headers.(authorization := [], cookie := [], proxyAuthorization := []));
    }
    s := s.(url := url, params := false);
  }

  /** A redirect: where the loop goes on, or how it ends, and whether the response is left open. */
  method FollowRedirect(before: Loop, reply: Reply, k: nat, cfg: Config)
      returns (outcome: Option<Outcome>, s: Loop, open: set<nat>)
    requires reply.Response?
    ensures Follow(before, reply, k, cfg) == if outcome.Some? then Stop(outcome.value, open) else Go(s)
    ensures outcome.None? ==> open == {}
  {
    s, open := before.(redirects := before.redirects + 1), {k};
    if cfg.maxRedirects != 0 && s.redirects >= cfg.maxRedirects {
      open := open - {k};
      return Some(Raised(TooManyRedirects)), s, open;
    }
    if !TurnsIntoGet(reply) && s.body && reply.consumed {
      open := open - {k};
      return Some(Raised(ConsumedBody)), s, open;
    }
    s := Convert(s, reply);
    var location := if reply.location.Some? && reply.location.value != "" then reply.location else reply.uri;
    if location.None? {
      return Some(Returned(k)), s, open;
    }
    open := open - {k};
    var target := cfg.resolve(s.url, location.value);
    if target.NotAUrl? || target.NoOrigin? {
      return Some(Raised(InvalidUrlRedirect)), s, open;
    }
    if target.NotHttp? {
      return Some(Raised(NonHttpRedirect)), s, open;
    }
    s := MoveTo(s, target.url);
    outcome := None;
  }

  /** What is known when the script has run out. */
  ghost predicate EndsWith(m: Machine, outcome: Option<Outcome>, sent: seq<Sent>, open: set<nat>)
  {
    m.sent == sent && m.open == open && outcome == (if m.Finished? then Some(m.outcome) else None)
  }

  lemma EndedAt(r: Request, replies: seq<Reply>, k: nat, cfg: Config, outcome: Outcome, sent: seq<Sent>, open: set<nat>)
    requires k <= |replies| && Run(r, replies, k, cfg) == Finished(outcome, sent, open)
    ensures EndsWith(Run(r, replies, |replies|, cfg), Some(outcome), sent, open)
  {
    FinishedStays(r, replies, k, |replies|, cfg);
  }

  /** The loop itself: the calls made, the outcome (none while the handler is awaited) and the responses left open. */
  method SendRequest(r: Request, replies: seq<Reply>, cfg: Config)
      returns (outcome: Option<Outcome>, sent: seq<Sent>, open: set<nat>)
    ensures EndsWith(Run(r, replies, |replies|, cfg), outcome, sent, open)
  {
    var s := Initial(r, cfg);
    sent, open := [], {};
    var k := 0;
    while true
      invariant k <= |replies| && open == {}
      invariant Run(r, replies, k, cfg) == Ask(s, sent, {}, cfg)
      decreases |replies| - k
    {
      var creds, error := s.url.creds, None;
      s, error := PrepareCall(s, cfg);
      if error.Some? {
        EndedAt(r, replies, k, cfg, Raised(error.value), sent, {});
        return Some(Raised(error.value)), sent, {};
      }
      sent := sent + [Sent(s.verb, s.url, creds, s.auth, s.cookies, s.headers, s.body, s.params)];
      assert Run(r, replies, k, cfg) == Awaiting(s, sent, {});
      if k == |replies| {
        return None, sent, {};
      }
      outcome, s, open := HandleReply(s, replies[k], k, cfg);
      k := k + 1;
      if outcome.Some? {
        EndedAt(r, replies, k, cfg, outcome.value, sent, open);
        return outcome, sent, open;
      }
    }
  }

  method HandleReply(before: Loop, reply: Reply, k: nat, cfg: Config)
      returns (outcome: Option<Outcome>, s: Loop, open: set<nat>)
    ensures Handle(before, reply, k, cfg) == if outcome.Some? then Stop(outcome.value, open) else Go(s)
    ensures outcome.None? ==> open == {}
  {
    s, open := before, {};
    if reply.Failed? {
      if Retryable(reply.failure) && s.retry {
        return None, s.(retry := false), open;
      }
      var error := if reply.failure == OsError(false) then WrappedOsError else FromHandler(reply.failure);
      return Some(Raised(error)), s, open;
    }
    if !(IsRedirect(reply.status) && cfg.allowRedirects) {
      return Some(Returned(k)), s, {k};
    }
    outcome, s, open := FollowRedirect(s, reply, k, cfg);
  }
}
