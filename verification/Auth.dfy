/** Token handling between gRPC services: the server interceptors, the outgoing metadata a handler attaches, the
    client interceptor of a dialled connection, and call chains built from them. */
module Auth {
  import opened Text

  type Metadata = map<string, seq<string>>

  datatype User = User(id: nat, email: string, token: string)

  /** What the user key of a context holds: nothing, nil, or a user. */
  datatype Identity = Nobody | NilUser | Known(user: User)

  datatype Context = Context(incoming: Option<Metadata>, outgoing: Option<Metadata>, identity: Identity)

  /** What a validator returns: a user, possibly nil, or an error. */
  datatype Verdict = Accepted(identity: Identity) | Rejected(error: string)

  type Validator = string -> Verdict

  datatype Outcome = Admitted(ctx: Context) | Denied(message: string)

  datatype Stream = Raw(ctx: Context) | Wrapped(under: Stream, ctx: Context)

  datatype StreamOutcome = StreamAdmitted(stream: Stream) | StreamDenied(message: string)

  /** The three method lists of the package. */
  datatype Policy = Policy(public: set<string>, service: set<string>, optional: set<string>)

  const AUTHORIZATION := "authorization"
  const SERVICE_TOKEN := "x-service-token"

  function Get(md: Metadata, key: string): seq<string> {
    if key in md then md[key] else []
  }

  /** The values of a key, none if there is no metadata at all. */
  function ValuesIn(md: Option<Metadata>, key: string): seq<string> {
    if md.None? then [] else Get(md.value, key)
  }

  predicate StartsNonEmpty(values: seq<string>) {
    values != [] && values[0] != ""
  }

  function AppendOutgoing(ctx: Context, key: string, value: string): Context {
    var md := if ctx.outgoing.None? then map[] else ctx.outgoing.value;
    ctx.(outgoing := Some(md[key := Get(md, key) + [value]]))
  }

  // ---------------------------------------------------------------- the bearer header

  /** strings.SplitN(s, " ", 2). */
  function SplitOnce(s: string): seq<string> {
    if s == "" then [""]
    else if s[0] == ' ' then ["", s[1..]]
    else var rest := SplitOnce(s[1..]); [[s[0]] + rest[0]] + rest[1..]
  }

  function ExtractToken(header: string): string {
    var parts := SplitOnce(header);
    if |parts| != 2 || ToLower(parts[0]) != "bearer" then "" else parts[1]
  }

  predicate SpaceFree(s: string) {
    forall i | 0 <= i < |s| :: s[i] != ' '
  }

  lemma {:induction false} SplitOnceIs(scheme: string, rest: string)
    requires SpaceFree(scheme)
    ensures SplitOnce(scheme) == [scheme]
    ensures SplitOnce(scheme + " " + rest) == [scheme, rest]
  {
    var s := scheme + " " + rest;
    if scheme == "" {
      assert s[1..] == rest;
    } else {
      assert s[1..] == scheme[1..] + " " + rest;
      SplitOnceIs(scheme[1..], rest);
      assert [scheme[0]] + scheme[1..] == scheme;
    }
  }

  lemma {:induction false} SplitOnceParts(s: string)
    ensures SpaceFree(SplitOnce(s)[0])
    ensures if |SplitOnce(s)| == 1 then SplitOnce(s)[0] == s
      else |SplitOnce(s)| == 2 && s == SplitOnce(s)[0] + " " + SplitOnce(s)[1]
  {
    if s != "" && s[0] != ' ' {
      SplitOnceParts(s[1..]);
      assert s == [s[0]] + s[1..];
    }
  }

  /** A header carries a token exactly when it is the bearer scheme in some spelling, a space, and the token. */
  lemma TokenIsWhatFollowsBearer(header: string, token: string)
    requires token != ""
    ensures ExtractToken(header) == token
      <==> exists scheme :: ToLower(scheme) == "bearer" && header == scheme + " " + token
  {
    SplitOnceParts(header);
    if scheme :| ToLower(scheme) == "bearer" && header == scheme + " " + token {
      BearerIsSpaceFree(scheme);
      SplitOnceIs(scheme, token);
    }
  }

  lemma BearerIsSpaceFree(scheme: string)
    requires ToLower(scheme) == "bearer"
    ensures SpaceFree(scheme)
  {
    forall i | 0 <= i < |scheme|
      ensures scheme[i] != ' '
    {
      assert ToLower(scheme)[i] == LowerChar(scheme[i]);
    }
  }

  /** Whatever the token, spaces and all, the header made for it gives it back. */
  lemma BearerRoundTrips(token: string)
    ensures ExtractToken("Bearer " + token) == token
  {
    assert ToLower("Bearer") == "bearer";
    BearerIsSpaceFree("Bearer");
    SplitOnceIs("Bearer", token);
    assert "Bearer" + " " + token == "Bearer " + token;
  }

  // ---------------------------------------------------------------- a service's gate

  function AuthorizeServiceCall(secret: string, ctx: Context): Option<string> {
    if ctx.incoming.None? then Some("missing metadata")
    else
      var tokens := Get(ctx.incoming.value, SERVICE_TOKEN);
      if !StartsNonEmpty(tokens) then Some("missing service token")
      else if !ValidateServiceToken(secret, tokens[0]) then Some("invalid service token")
      else None
  }

  predicate ValidateServiceToken(secret: string, token: string) {
    secret != "" && token != "" && token == secret
  }

  function ContextWithOptionalAuth(ctx: Context, validate: Validator): Context {
    if ctx.incoming.None? then ctx
    else
      var header := Get(ctx.incoming.value, AUTHORIZATION);
      if header == [] then ctx
      else
        var token := ExtractToken(header[0]);
        if token == "" then ctx
        else
          match validate(token)
          case Rejected(_) => ctx
          case Accepted(identity) => ctx.(identity := identity)
  }

  function Unary(policy: Policy, secret: string, validate: Validator, fullMethod: string, ctx: Context): Outcome {
    if fullMethod in policy.public then Admitted(ctx)
    else if fullMethod in policy.service then
      var error := AuthorizeServiceCall(secret, ctx);
      if error.Some? then Denied(error.value) else Admitted(ctx)
    else if fullMethod in policy.optional then Admitted(ContextWithOptionalAuth(ctx, validate))
    else if ctx.incoming.None? then Denied("missing metadata")
    else
      var header := Get(ctx.incoming.value, AUTHORIZATION);
      if header == [] then Denied("missing authorization header")
      else
        var token := ExtractToken(header[0]);
        if token == "" then Denied("invalid authorization header format")
        else
          match validate(token)
          case Rejected(error) => Denied("invalid token: " + error)
          case Accepted(identity) => Admitted(ctx.(identity := identity))
  }

  function Streaming(
    policy: Policy, secret: string, validate: Validator, fullMethod: string, stream: Stream): StreamOutcome
  {
    var ctx := stream.ctx;
    if fullMethod in policy.public then StreamAdmitted(stream)
    else if fullMethod in policy.service then
      var error := AuthorizeServiceCall(secret, ctx);
      if error.Some? then StreamDenied(error.value) else StreamAdmitted(stream)
    else if fullMethod in policy.optional then StreamAdmitted(Wrapped(stream, ContextWithOptionalAuth(ctx, validate)))
    else if ctx.incoming.None? then StreamDenied("missing metadata")
    else
      var header := Get(ctx.incoming.value, AUTHORIZATION);
      if header == [] then StreamDenied("missing authorization header")
      else
        var token := ExtractToken(header[0]);
        if token == "" then StreamDenied("invalid authorization header format")
        else
          match validate(token)
          case Rejected(error) => StreamDenied("invalid token: " + error)
          case Accepted(identity) => StreamAdmitted(Wrapped(stream, ctx.(identity := identity)))
  }

  /** The token a call presents, "" if none. */
  function Presented(ctx: Context): string {
    var header := ValuesIn(ctx.incoming, AUTHORIZATION);
    if header == [] then "" else ExtractToken(header[0])
  }

  predicate Opens(
    policy: Policy, secret: string, validate: Validator, fullMethod: string, token: string,
    serviceTokens: seq<string>)
  {
    || fullMethod in policy.public
    || (fullMethod in policy.service && secret != "" && serviceTokens != [] && serviceTokens[0] == secret)
    || (fullMethod !in policy.service && fullMethod in policy.optional)
    || (fullMethod !in policy.service && token != "" && validate(token).Accepted?)
  }

  /** Whether the handler of an admitted call is told who is calling. */
  predicate Identifies(policy: Policy, validate: Validator, fullMethod: string, token: string) {
    fullMethod !in policy.public && fullMethod !in policy.service && token != "" && validate(token).Accepted?
  }

  /** A unary call is admitted exactly when the method's own gate opens, and all an admission changes is the
      identity, for which the validator's word on the presented token is taken. */
  lemma UnaryAdmitsExactlyWhen(policy: Policy, secret: string, validate: Validator, fullMethod: string, ctx: Context)
    ensures var o, token := Unary(policy, secret, validate, fullMethod, ctx), Presented(ctx);
      && (o.Admitted? <==> Opens(policy, secret, validate, fullMethod, token, ValuesIn(ctx.incoming, SERVICE_TOKEN)))
      && (o.Admitted? ==>
            o.ctx == (
              if Identifies(policy, validate, fullMethod, token) then ctx.(identity := validate(token).identity)
              else ctx))
  {
  }

  /** What a refused call is told: for an internal method about the service token, and otherwise about the bearer
      header, its format, or the validator's own error. */
  lemma RefusalsSayWhy(policy: Policy, secret: string, validate: Validator, fullMethod: string, ctx: Context)
    requires Unary(policy, secret, validate, fullMethod, ctx).Denied?
    ensures var message := Unary(policy, secret, validate, fullMethod, ctx).message;
      var tokens, header := ValuesIn(ctx.incoming, SERVICE_TOKEN), ValuesIn(ctx.incoming, AUTHORIZATION);
      && (message == "missing metadata" <==> ctx.incoming.None?)
      && (message == "missing service token" <==>
            fullMethod in policy.service && ctx.incoming.Some? && (tokens == [] || tokens[0] == ""))
      && (message == "invalid service token" <==>
            fullMethod in policy.service && tokens != [] && tokens[0] != "" && tokens[0] != secret)
      && (message == "missing authorization header" <==>
            fullMethod !in policy.service && ctx.incoming.Some? && header == [])
      && (fullMethod !in policy.service && header != [] && Presented(ctx) == "" ==>
            message == "invalid authorization header format")
      && (fullMethod !in policy.service && Presented(ctx) != "" ==>
            validate(Presented(ctx)).Rejected? && message == "invalid token: " + validate(Presented(ctx)).error)
  {
    if fullMethod !in policy.service && Presented(ctx) != "" {
      var message := "invalid token: " + validate(Presented(ctx)).error;
      assert message[..8] == "invalid ";
      assert message[8..13] == "token";
      assert "missing metadata"[..8] == "missing " && "invalid service token"[8..13] == "servi";
      assert "missing service token"[..8] == "missing " && "missing authorization header"[..8] == "missing ";
    }
  }

  /** Streams and unary calls are let in alike, and their handlers are given the same context. */
  lemma StreamsAreTreatedAlike(policy: Policy, secret: string, validate: Validator, fullMethod: string, stream: Stream)
    ensures var u := Unary(policy, secret, validate, fullMethod, stream.ctx);
      var s := Streaming(policy, secret, validate, fullMethod, stream);
      && (u.Denied? <==> s.StreamDenied?)
      && (u.Denied? ==> u.message == s.message)
      && (u.Admitted? ==> u.ctx == s.stream.ctx && (s.stream == stream || s.stream == Wrapped(stream, u.ctx)))
  {
  }

  // ---------------------------------------------------------------- what a handler sends on

  function AttachOutgoingServiceAuth(secret: string, ctx: Context): Context {
    if secret == "" then ctx
    else if StartsNonEmpty(ValuesIn(ctx.outgoing, SERVICE_TOKEN)) then ctx
    else AppendOutgoing(ctx, SERVICE_TOKEN, secret)
  }

  /** The authorization value AttachOutgoingAuth would append, if any. */
  function Inherited(ctx: Context): Option<string> {
    if ctx.identity.Known? && ctx.identity.user.token != "" then Some("Bearer " + ctx.identity.user.token)
    else
      var values := ValuesIn(ctx.incoming, AUTHORIZATION);
      if StartsNonEmpty(values) then Some(values[0]) else None
  }

  function AttachOutgoingAuth(secret: string, ctx: Context): Context {
    var attached := AttachOutgoingServiceAuth(secret, ctx);
    if StartsNonEmpty(ValuesIn(attached.outgoing, AUTHORIZATION)) then attached
    else
      match Inherited(attached)
      case None => attached
      case Some(value) => AppendOutgoing(attached, AUTHORIZATION, value)
  }

  /** Attaching twice is attaching once, unless a value would be added behind an empty first one. */
  lemma AttachIsIdempotentExactlyWhen(secret: string, ctx: Context)
    ensures var once := AttachOutgoingAuth(secret, ctx);
      AttachOutgoingAuth(secret, once) == once
      <==>
      && (secret != "" ==> !StartsEmpty(ValuesIn(ctx.outgoing, SERVICE_TOKEN)))
      && (Inherited(ctx).Some? ==> !StartsEmpty(ValuesIn(ctx.outgoing, AUTHORIZATION)))
  {
    var once := AttachOutgoingAuth(secret, ctx);
    var twice := AttachOutgoingAuth(secret, once);
    Attached(secret, ctx);
    Attached(secret, once);
    assert twice == once ==>
      && ValuesIn(twice.outgoing, SERVICE_TOKEN) == ValuesIn(once.outgoing, SERVICE_TOKEN)
      && ValuesIn(twice.outgoing, AUTHORIZATION) == ValuesIn(once.outgoing, AUTHORIZATION);
  }

  predicate StartsEmpty(values: seq<string>) {
    values != [] && values[0] == ""
  }

  /** The two headers after attaching; nothing else of the context changes, and no other header. */
  lemma Attached(secret: string, ctx: Context)
    ensures var r := AttachOutgoingAuth(secret, ctx);
      && r.incoming == ctx.incoming && r.identity == ctx.identity
      && ValuesIn(r.outgoing, SERVICE_TOKEN) == WithDefault(
        ValuesIn(ctx.outgoing, SERVICE_TOKEN), if secret == "" then None else Some(secret))
      && ValuesIn(r.outgoing, AUTHORIZATION) == WithDefault(ValuesIn(ctx.outgoing, AUTHORIZATION), Inherited(ctx))
      && forall key | key != SERVICE_TOKEN && key != AUTHORIZATION ::
           ValuesIn(r.outgoing, key) == ValuesIn(ctx.outgoing, key)
  {
  }

  /** The same in the headers' own words: a first value that is not empty is left alone; otherwise the secret and the
      caller's authorization are appended, the latter made of the user's token, or passed on as it came. */
  lemma AttachedHeaders(secret: string, ctx: Context)
    ensures var r, was := AttachOutgoingAuth(secret, ctx).outgoing, ctx.outgoing;
      var tokens, header := ValuesIn(was, SERVICE_TOKEN), ValuesIn(was, AUTHORIZATION);
      var arrived := ValuesIn(ctx.incoming, AUTHORIZATION);
      && (secret == "" || (tokens != [] && tokens[0] != "") ==> ValuesIn(r, SERVICE_TOKEN) == tokens)
      && (secret != "" && (tokens == [] || tokens[0] == "") ==> ValuesIn(r, SERVICE_TOKEN) == tokens + [secret])
      && (header != [] && header[0] != "" ==> ValuesIn(r, AUTHORIZATION) == header)
      && (header == [] || header[0] == "" ==>
            ValuesIn(r, AUTHORIZATION) == header + (
              if ctx.identity.Known? && ctx.identity.user.token != "" then ["Bearer " + ctx.identity.user.token]
              else if arrived != [] && arrived[0] != "" then [arrived[0]]
              else []))
  {
    Attached(secret, ctx);
    var header := ValuesIn(ctx.outgoing, AUTHORIZATION);
    assert header + [] == header;
  }

  function WithDefault(values: seq<string>, value: Option<string>): seq<string> {
    if StartsNonEmpty(values) || value.None? then values else values + [value.value]
  }

  // ---------------------------------------------------------------- one call

  /** The client interceptor of a dialled connection: calls of internal methods carry the caller's secret. */
  function ClientIntercept(policy: Policy, secret: string, fullMethod: string, ctx: Context): Option<Context> {
    if fullMethod !in policy.service then Some(ctx)
    else if secret == "" then None
    else Some(AppendOutgoing(ctx, SERVICE_TOKEN, secret))
  }

  /** The context a call arrives with: the caller's outgoing metadata is the callee's incoming one. */
  function Arrive(ctx: Context): Context {
    Context(Some(if ctx.outgoing.None? then map[] else ctx.outgoing.value), None, Nobody)
  }

  /** A handler holding `ctx` attaches its authentication and calls `fullMethod`. */
  function Call(policy: Policy, secret: string, fullMethod: string, ctx: Context): Option<Context> {
    match ClientIntercept(policy, secret, fullMethod, AttachOutgoingAuth(secret, ctx))
    case None => None
    case Some(sent) => Some(Arrive(sent))
  }

  /** A handler that has sent nothing yet passes on the presented token exactly when the identity it was given, if
      any, names no other token. */
  lemma CallKeepsTokenExactlyWhen(policy: Policy, secret: string, fullMethod: string, ctx: Context)
    requires ctx.outgoing.None? && Call(policy, secret, fullMethod, ctx).Some?
    ensures Presented(Call(policy, secret, fullMethod, ctx).value) == Presented(ctx)
      <==> (ctx.identity.Known? ==> ctx.identity.user.token in {"", Presented(ctx)})
  {
    Attached(secret, ctx);
    var attached := AttachOutgoingAuth(secret, ctx);
    var arrived := Call(policy, secret, fullMethod, ctx).value;
    assert ValuesIn(arrived.incoming, AUTHORIZATION) == ValuesIn(attached.outgoing, AUTHORIZATION);
    if ctx.identity.Known? {
      BearerRoundTrips(ctx.identity.user.token);
    }
    assert ExtractToken("") == "";
  }

  /** What the callee sees as service token: the caller's secret, and once more if the method is internal. All other
      metadata arrives as it was sent. */
  lemma CallCarriesSecret(policy: Policy, secret: string, fullMethod: string, ctx: Context)
    requires ctx.outgoing.None?
    ensures Call(policy, secret, fullMethod, ctx).None? <==> fullMethod in policy.service && secret == ""
    ensures var r := Call(policy, secret, fullMethod, ctx);
      r.Some? ==>
        && r.value.outgoing.None?
        && r.value.identity == Nobody
        && ValuesIn(r.value.incoming, SERVICE_TOKEN) == (
          if secret == "" then [] else if fullMethod in policy.service then [secret, secret] else [secret])
        && forall key | key != SERVICE_TOKEN ::
             ValuesIn(r.value.incoming, key) == ValuesIn(AttachOutgoingAuth(secret, ctx).outgoing, key)
  {
    Attached(secret, ctx);
  }

  // ---------------------------------------------------------------- call chains

  /** One service on the way: the method called, and the callee's secret and validator. */
  datatype Hop = Hop(fullMethod: string, secret: string, validate: Validator)

  function Serve(policy: Policy, hop: Hop, ctx: Context): Outcome {
    Unary(policy, hop.secret, hop.validate, hop.fullMethod, ctx)
  }

  /** The contexts the handlers of a chain of calls are given, in order; it ends early at a call that fails. */
  function Handled(policy: Policy, hops: seq<Hop>, arriving: Context): seq<Context> {
    if hops == [] then []
    else
      match Serve(policy, hops[0], arriving)
      case Denied(_) => []
      case Admitted(ctx) =>
        if |hops| == 1 then [ctx]
        else
          match Call(policy, hops[0].secret, hops[1].fullMethod, ctx)
          case None => [ctx]
          case Some(next) => [ctx] + Handled(policy, hops[1..], next)
  }

  /** A validator that, like the one built on the auth service, returns a user with the token it was asked about. */
  ghost predicate Faithful(validate: Validator) {
    forall token :: validate(token).Accepted? && validate(token).identity.Known? ==>
      validate(token).identity.user.token in {"", token}
  }

  /** The outcome of a call of the auth service. */
  datatype Answer = Failed(error: string) | Answered(valid: bool, id: nat, email: string)

  /** AuthServiceTokenValidator; `ask` is the auth service. */
  function AuthServiceValidator(ask: string -> Answer): Validator {
    token =>
      match ask(token)
      case Failed(error) => Rejected(error)
      case Answered(valid, id, email) =>
        if valid then Accepted(Known(User(id, email, token))) else Rejected("invalid token")
  }

  /** The validator accepts exactly the tokens the auth service calls valid, as the user it names and with the token it
      was asked about. */
  lemma AuthServiceValidatorIsFaithful(ask: string -> Answer)
    ensures Faithful(AuthServiceValidator(ask))
    ensures forall token :: AuthServiceValidator(ask)(token).Accepted? <==> ask(token).Answered? && ask(token).valid
    ensures forall token | AuthServiceValidator(ask)(token).Accepted? ::
      var identity := AuthServiceValidator(ask)(token).identity;
      && identity.Known? && identity.user.token == token
      && identity.user.id == ask(token).id && identity.user.email == ask(token).email
    ensures forall token | ask(token).Failed? :: AuthServiceValidator(ask)(token).error == ask(token).error
  {
  }

  ghost predicate AllFaithful(hops: seq<Hop>) {
    forall i | 0 <= i < |hops| :: Faithful(hops[i].validate)
  }

  /** The context presents `token`, and names the user the hop's own validator gives for it, if it asks. */
  predicate IsCaller(policy: Policy, hop: Hop, ctx: Context, token: string) {
    && Presented(ctx) == token
    && ctx.identity == (
      if Identifies(policy, hop.validate, hop.fullMethod, token) then hop.validate(token).identity else Nobody)
  }

  /** However long the chain and whatever the kinds of its methods: every handler that is reached has been presented
      the token of the first call, and is told the identity its own validator gives that token. */
  lemma {:induction false} ChainKeepsToken(policy: Policy, hops: seq<Hop>, arriving: Context)
    requires AllFaithful(hops) && arriving.outgoing.None? && arriving.identity.Nobody?
    ensures |Handled(policy, hops, arriving)| <= |hops|
    ensures forall i | 0 <= i < |Handled(policy, hops, arriving)| ::
      IsCaller(policy, hops[i], Handled(policy, hops, arriving)[i], Presented(arriving))
  {
    if hops != [] {
      UnaryAdmitsExactlyWhen(policy, hops[0].secret, hops[0].validate, hops[0].fullMethod, arriving);
      var o := Serve(policy, hops[0], arriving);
      if o.Admitted? && |hops| > 1 && Call(policy, hops[0].secret, hops[1].fullMethod, o.ctx).Some? {
        var next := Call(policy, hops[0].secret, hops[1].fullMethod, o.ctx).value;
        CallKeepsTokenExactlyWhen(policy, hops[0].secret, hops[1].fullMethod, o.ctx);
        assert AllFaithful(hops[1..]);
        ChainKeepsToken(policy, hops[1..], next);
      }
    }
  }

  /** Whether the caller of hop `i` can make the call, and its gate opens to the first call's token and to the
      caller's secret. */
  predicate HopOpens(policy: Policy, hops: seq<Hop>, i: nat, token: string, serviceTokens: seq<string>)
    requires i < |hops|
  {
    && (i > 0 && hops[i].fullMethod in policy.service ==> hops[i - 1].secret != "")
    && Opens(policy, hops[i].secret, hops[i].validate, hops[i].fullMethod, token,
      if i == 0 then serviceTokens else [hops[i - 1].secret])
  }

  /** A chain reaches its last handler exactly when every gate on the way opens to the first call's token, or, for
      an internal method, to the secret of the service before it. */
  lemma {:induction false} ChainCompletesExactlyWhen(policy: Policy, hops: seq<Hop>, arriving: Context)
    requires AllFaithful(hops) && arriving.outgoing.None? && arriving.identity.Nobody?
    ensures |Handled(policy, hops, arriving)| == |hops|
      <==> forall i | 0 <= i < |hops| ::
        HopOpens(policy, hops, i, Presented(arriving), ValuesIn(arriving.incoming, SERVICE_TOKEN))
  {
    var token, serviceTokens := Presented(arriving), ValuesIn(arriving.incoming, SERVICE_TOKEN);
    if hops != [] {
      UnaryAdmitsExactlyWhen(policy, hops[0].secret, hops[0].validate, hops[0].fullMethod, arriving);
      var o := Serve(policy, hops[0], arriving);
      assert o.Admitted? <==> HopOpens(policy, hops, 0, token, serviceTokens);
      if o.Admitted? && |hops| > 1 {
        CallCarriesSecret(policy, hops[0].secret, hops[1].fullMethod, o.ctx);
        var call := Call(policy, hops[0].secret, hops[1].fullMethod, o.ctx);
        if call.None? {
          assert !HopOpens(policy, hops, 1, token, serviceTokens);
        } else {
          CallKeepsTokenExactlyWhen(policy, hops[0].secret, hops[1].fullMethod, o.ctx);
          assert AllFaithful(hops[1..]);
          ChainCompletesExactlyWhen(policy, hops[1..], call.value);
          TailOpens(policy, hops, token, serviceTokens, ValuesIn(call.value.incoming, SERVICE_TOKEN));
        }
      }
    }
  }

  lemma TailOpens(policy: Policy, hops: seq<Hop>, token: string, first: seq<string>, carried: seq<string>)
    requires |hops| > 1
    requires hops[1].fullMethod in policy.service ==> hops[0].secret != ""
    requires if hops[0].secret == "" then carried == [] else carried != [] && carried[0] == hops[0].secret
    ensures (forall i | 0 <= i < |hops| - 1 :: HopOpens(policy, hops[1..], i, token, carried))
      <==> (forall i | 1 <= i < |hops| :: HopOpens(policy, hops, i, token, first))
  {
    forall i | 1 <= i < |hops|
      ensures HopOpens(policy, hops[1..], i - 1, token, carried) <==> HopOpens(policy, hops, i, token, first)
    {
    }
    if forall i | 0 <= i < |hops| - 1 :: HopOpens(policy, hops[1..], i, token, carried) {
      forall i | 1 <= i < |hops|
        ensures HopOpens(policy, hops, i, token, first)
      {
        assert HopOpens(policy, hops[1..], i - 1, token, carried);
      }
    }
    if forall i | 1 <= i < |hops| :: HopOpens(policy, hops, i, token, first) {
      forall i | 0 <= i < |hops| - 1
        ensures HopOpens(policy, hops[1..], i, token, carried)
      {
        assert HopOpens(policy, hops, i + 1, token, first);
      }
    }
  }
}
