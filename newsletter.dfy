/** `POST /newsletters` (zero2prod/src/routes/newsletter.rs): authenticate
    the caller with HTTP Basic credentials (section 2 of RFC 7617) against
    the users table, then send the issue to every confirmed subscriber,
    one email at a time, stopping at the first email the provider refuses. */
module Newsletter {
  import opened Common
  import opened Domain
  import opened Store
  import Base64
  import Utf8
  import Format

  datatype Content = Content(html: string, text: string)

  /** The JSON body of the request. */
  datatype BodyData = BodyData(title: string, content: Content)

  datatype PublishError =
    | AuthError(cause: string)          // displayed as "Authentication failed."; `cause` is its source
    | UnexpectedError(context: string)

  /** An HTTP response: status and headers. */
  datatype HttpResponse = HttpResponse(status: nat, headers: seq<(string, string)>)

  const WWW_AUTHENTICATE := ("WWW-Authenticate", "Basic realm=\"publish\"")

  /** `PublishError::status_code`. */
  function StatusCode(e: PublishError): (code: nat)
    ensures code == 401 <==> e.AuthError?
    ensures code == 500 <==> e.UnexpectedError?
  {
    match e
    case UnexpectedError(_) => 500
    case AuthError(_) => 401
  }

  /** `PublishError::error_response`: an authentication failure also asks
      for Basic credentials for the realm `publish`. */
  function ErrorResponse(e: PublishError): (r: HttpResponse)
    ensures r.status == StatusCode(e)
    ensures r.headers == if e.AuthError? then [WWW_AUTHENTICATE] else []
  {
    match e
    case UnexpectedError(_) => HttpResponse(500, [])
    case AuthError(_) => HttpResponse(401, [WWW_AUTHENTICATE])
  }

  function Response(r: Result<(), PublishError>): HttpResponse
  {
    if r.Success? then HttpResponse(200, []) else ErrorResponse(r.error)
  }

  // ---------------------------------------------------------------------
  // Basic credentials

  const MISSING_HEADER := "The 'Authorization' header is missing"
  const NOT_A_STRING := "The 'Authorization' header was not a valid utf8 string."
  const NOT_BASIC := "The authorization schema was not 'Basic'"
  const NOT_BASE64 := "Failed to base64-decode 'Basic' credentials."
  const NOT_UTF8 := "The decoded credential string is not valid utf8."
  const NO_PASSWORD := "A password must be provided in 'Basic' auth."

  /** `Basic ` */
  const BASIC_PREFIX: seq<byte> := [66, 97, 115, 105, 99, 32]

  /** `:` */
  const COLON: byte := 58

  /** Username and password, as UTF-8 bytes. */
  datatype Credentials = Credentials(username: seq<byte>, password: seq<byte>)

  /** The bytes `HeaderValue::to_str` accepts: visible ASCII and tab. */
  predicate IsVisibleAscii(b: byte)
  {
    b == 9 || 32 <= b < 127
  }

  predicate AllVisible(h: seq<byte>)
  {
    forall i :: 0 <= i < |h| ==> IsVisibleAscii(h[i])
  }

  predicate HasBasicPrefix(h: seq<byte>)
  {
    |BASIC_PREFIX| <= |h| && h[..|BASIC_PREFIX|] == BASIC_PREFIX
  }

  /** The position of the first occurrence of `c`. */
  function FirstIndexOf(s: seq<byte>, c: byte): (r: Option<nat>)
    ensures r.None? <==> c !in s
    ensures r.Some? ==> r.value < |s| && s[r.value] == c && c !in s[..r.value]
    ensures r.Some? ==> forall i :: 0 <= i < r.value ==> s[i] != c
  {
    if |s| == 0 then None
    else if s[0] == c then Some(0)
    else
      var rest := FirstIndexOf(s[1..], c);
      if rest.None? then None
      else
        assert s[..rest.value + 1] == [s[0]] + s[1..][..rest.value];
        Some(rest.value + 1)
  }

  /** The decoded `username:password`, split at its first colon, once it is
      known to be UTF-8. */
  function SplitCredentials(decoded: seq<byte>): (r: Result<Credentials, string>)
    ensures r.Success? <==> Utf8.IsValid(decoded) && COLON in decoded
    ensures r.Success? ==> COLON !in r.value.username && decoded == r.value.username + [COLON] + r.value.password
  {
    if !Utf8.IsValid(decoded) then Failure(NOT_UTF8)
    else match FirstIndexOf(decoded, COLON)
      case None => Failure(NO_PASSWORD)
      case Some(k) =>
        assert decoded == decoded[..k] + [COLON] + decoded[k + 1..];
        Success(Credentials(decoded[..k], decoded[k + 1..]))
  }

  /** `basic_authentication`, given the first `Authorization` header of the
      request, if any. Each check that fails has its own message;
      `splitn(2, ':')` always yields a username, so only a missing
      password is reported. */
  function BasicAuthentication(authorization: Option<seq<byte>>): (r: Result<Credentials, string>)
    ensures r.Success? <==>
      && authorization.Some? && AllVisible(authorization.value) && HasBasicPrefix(authorization.value)
      && var decoded := Base64.Decode(authorization.value[|BASIC_PREFIX|..]);
         decoded.Some? && Utf8.IsValid(decoded.value) && COLON in decoded.value
    ensures r.Success? ==>
      && COLON !in r.value.username
      && Base64.Decode(authorization.value[|BASIC_PREFIX|..]) == Some(r.value.username + [COLON] + r.value.password)
  {
    match authorization
    case None => Failure(MISSING_HEADER)
    case Some(h) =>
      if !AllVisible(h) then Failure(NOT_A_STRING)
      else if !HasBasicPrefix(h) then Failure(NOT_BASIC)
      else match Base64.Decode(h[|BASIC_PREFIX|..])
        case None => Failure(NOT_BASE64)
        case Some(decoded) => SplitCredentials(decoded)
  }

  /** Each failing check is reported with its own message, in the order the
      checks are made. */
  lemma BasicAuthenticationErrors(authorization: Option<seq<byte>>)
    ensures authorization.None? ==> BasicAuthentication(authorization) == Failure(MISSING_HEADER)
    ensures authorization.Some? && !AllVisible(authorization.value) ==>
              BasicAuthentication(authorization) == Failure(NOT_A_STRING)
    ensures authorization.Some? && AllVisible(authorization.value) && !HasBasicPrefix(authorization.value) ==>
              BasicAuthentication(authorization) == Failure(NOT_BASIC)
    ensures authorization.Some? && AllVisible(authorization.value) && HasBasicPrefix(authorization.value) ==>
              var decoded := Base64.Decode(authorization.value[|BASIC_PREFIX|..]);
              && (decoded.None? ==> BasicAuthentication(authorization) == Failure(NOT_BASE64))
              && (decoded.Some? && !Utf8.IsValid(decoded.value) ==> BasicAuthentication(authorization) == Failure(NOT_UTF8))
              && (decoded.Some? && Utf8.IsValid(decoded.value) && COLON !in decoded.value ==>
                    BasicAuthentication(authorization) == Failure(NO_PASSWORD))
  {
  }

  /** The credentials are valid UTF-8 on their own. */
  lemma CredentialsAreUtf8(authorization: Option<seq<byte>>)
    requires BasicAuthentication(authorization).Success?
    ensures Utf8.IsValid(BasicAuthentication(authorization).value.username)
    ensures Utf8.IsValid(BasicAuthentication(authorization).value.password)
  {
    var c := BasicAuthentication(authorization).value;
    Utf8.SplitAtAscii(c.username, COLON, c.password);
  }

  lemma EncodingCharIsVisible(c: byte)
    requires Base64.IsEncodingChar(c)
    ensures IsVisibleAscii(c)
  {
  }

  /** The header a client builds is visible ASCII behind the `Basic ` prefix. */
  lemma BasicHeaderShape(plain: seq<byte>)
    ensures var h := BASIC_PREFIX + Base64.Encode(plain);
            AllVisible(h) && HasBasicPrefix(h) && h[|BASIC_PREFIX|..] == Base64.Encode(plain)
  {
    var encoded := Base64.Encode(plain);
    var h := BASIC_PREFIX + encoded;
    forall i | 0 <= i < |h| ensures IsVisibleAscii(h[i]) {
      if i >= |BASIC_PREFIX| {
        EncodingCharIsVisible(encoded[i - |BASIC_PREFIX|]);
      }
    }
    assert h[..|BASIC_PREFIX|] == BASIC_PREFIX;
  }

  /** The first colon of `username:password` is the one after the username. */
  lemma FirstColon(username: seq<byte>, password: seq<byte>)
    requires COLON !in username
    ensures FirstIndexOf(username + [COLON] + password, COLON) == Some(|username|)
  {
    var plain := username + [COLON] + password;
    assert plain[|username|] == COLON;
    assert forall i :: 0 <= i < |username| ==> plain[i] == username[i];
  }

  /** A client that sends `Basic ` followed by the base 64 of
      `username:password` is read back as exactly that username and
      password, for any UTF-8 username without a colon and any UTF-8
      password (empty or with colons). */
  lemma BasicAuthenticationRoundTrip(username: seq<byte>, password: seq<byte>)
    requires COLON !in username && Utf8.IsValid(username) && Utf8.IsValid(password)
    ensures BasicAuthentication(Some(BASIC_PREFIX + Base64.Encode(username + [COLON] + password)))
              == Success(Credentials(username, password))
  {
    var plain := username + [COLON] + password;
    BasicHeaderShape(plain);
    Base64.DecodeEncode(plain);
    SplitCredentialsRoundTrip(username, password);
  }

  lemma SplitCredentialsRoundTrip(username: seq<byte>, password: seq<byte>)
    requires COLON !in username && Utf8.IsValid(username) && Utf8.IsValid(password)
    ensures SplitCredentials(username + [COLON] + password) == Success(Credentials(username, password))
  {
    var plain := username + [COLON] + password;
    Utf8.AsciiIsValid(COLON);
    Utf8.ConcatValid(username, [COLON]);
    Utf8.ConcatValid(username + [COLON], password);
    FirstColon(username, password);
    assert plain[..|username|] == username;
    assert plain[|username| + 1..] == password;
  }

  // ---------------------------------------------------------------------
  // Credential check

  /** A SHA3-256 digest. */
  type Digest = d: seq<byte> | |d| == 32 witness seq(32, i => 0)

  /** SHA3-256 (FIPS 202); the hash function itself is not modelled. */
  type Sha3 = seq<byte> -> Digest

  /** `format!("{:x}", digest)`: 64 lower-case hex digits. */
  function PasswordHash(sha3: Sha3, password: seq<byte>): (h: string)
    ensures |h| == 64
  {
    Format.LowerHexBytes(sha3(password))
  }

  const QUERY_CONTEXT := "Failed to perform a query to validate auth credentials."
  const INVALID_CREDENTIALS := "Invalid username or password."

  /** `validate_credenticals`; `queryOk` says whether the select runs. */
  function ValidateCredentials(users: map<UserKey, Uuid>, c: Credentials, sha3: Sha3, queryOk: bool): Result<Uuid, PublishError>
  {
    if !queryOk then Failure(UnexpectedError(QUERY_CONTEXT))
    else if (c.username, PasswordHash(sha3, c.password)) in users then Success(users[(c.username, PasswordHash(sha3, c.password))])
    else Failure(AuthError(INVALID_CREDENTIALS))
  }

  /** A user is found exactly when a row has this username and the hex
      digest of this password; otherwise the caller is refused, unless the
      query itself failed, which is an unexpected error. */
  lemma ValidateCredentialsSpec(users: map<UserKey, Uuid>, c: Credentials, sha3: Sha3, queryOk: bool)
    ensures var r := ValidateCredentials(users, c, sha3, queryOk);
            && (r.Success? <==> queryOk && exists k :: k in users && k.0 == c.username && k.1 == PasswordHash(sha3, c.password))
            && (r.Success? ==> r.value == users[(c.username, PasswordHash(sha3, c.password))])
            && (r.Failure? && r.error.UnexpectedError? <==> !queryOk)
  {
    var key := (c.username, PasswordHash(sha3, c.password));
    if queryOk && key in users {
      assert key.0 == c.username && key.1 == PasswordHash(sha3, c.password);
    }
  }

  // ---------------------------------------------------------------------
  // Confirmed subscribers

  /** `select email from subscriptions where status = 'confirmed'`, in row order. */
  function ConfirmedRows(rows: seq<Subscription>): (r: seq<Subscription>)
    ensures forall k :: 0 <= k < |r| ==> r[k].status == Confirmed
    decreases |rows|
  {
    if rows == [] then []
    else ConfirmedRows(rows[..|rows| - 1]) +
         (if rows[|rows| - 1].status == Confirmed then [rows[|rows| - 1]] else [])
  }

  /** Each confirmed row is selected exactly as often as it occurs, and no
      pending row is. */
  lemma {:induction false} ConfirmedRowsCount(rows: seq<Subscription>, x: Subscription)
    ensures multiset(ConfirmedRows(rows))[x] == if x.status == Confirmed then multiset(rows)[x] else 0
    decreases |rows|
  {
    if rows != [] {
      var init, last := rows[..|rows| - 1], rows[|rows| - 1];
      assert rows == init + [last];
      ConfirmedRowsCount(init, x);
    }
  }

  /** The selection keeps row order. */
  lemma {:induction false} ConfirmedRowsAppend(a: seq<Subscription>, b: seq<Subscription>)
    ensures ConfirmedRows(a + b) == ConfirmedRows(a) + ConfirmedRows(b)
    decreases |b|
  {
    if b == [] {
      assert a + b == a;
    } else {
      var init, last := b[..|b| - 1], b[|b| - 1];
      assert (a + b)[..|a + b| - 1] == a + init;
      assert (a + b)[|a + b| - 1] == last;
      ConfirmedRowsAppend(a, init);
    }
  }

  /** `get_confirmed_subscriber`: each selected email, parsed again. */
  function GetConfirmedSubscribers(rows: seq<Subscription>, v: Validators): (r: seq<Result<string, string>>)
    ensures |r| == |ConfirmedRows(rows)|
  {
    var c := ConfirmedRows(rows);
    seq(|c|, k requires 0 <= k < |c| => v.parseEmail(c[k].email))
  }

  /** The emails a fan-out over `subs` addresses, in order: the valid ones. */
  function ValidEmails(subs: seq<Result<string, string>>): seq<string>
    decreases |subs|
  {
    if subs == [] then []
    else (if subs[0].Success? then [subs[0].value] else []) + ValidEmails(subs[1..])
  }

  lemma {:induction false} ValidEmailsAppend(x: seq<Result<string, string>>, y: seq<Result<string, string>>)
    ensures ValidEmails(x + y) == ValidEmails(x) + ValidEmails(y)
    decreases |x|
  {
    if x == [] {
      assert x + y == y;
    } else {
      assert (x + y)[1..] == x[1..] + y;
      ValidEmailsAppend(x[1..], y);
    }
  }

  /** The addresses a newsletter goes to when every send succeeds. */
  function Recipients(rows: seq<Subscription>, v: Validators): seq<string>
  {
    ValidEmails(GetConfirmedSubscribers(rows, v))
  }

  /** Who receives the newsletter is decided row by row, in row order: a
      row contributes its parsed email once if it is confirmed and the
      email is valid, and nothing otherwise. */
  lemma RecipientsByRow(a: seq<Subscription>, b: seq<Subscription>, row: Subscription, v: Validators)
    ensures Recipients(a + b, v) == Recipients(a, v) + Recipients(b, v)
    ensures Recipients([row], v) ==
              if row.status == Confirmed && v.parseEmail(row.email).Success? then [v.parseEmail(row.email).value] else []
  {
    ConfirmedRowsAppend(a, b);
    var ga, gb := GetConfirmedSubscribers(a, v), GetConfirmedSubscribers(b, v);
    assert GetConfirmedSubscribers(a + b, v) == ga + gb;
    ValidEmailsAppend(ga, gb);
    assert [row][..0] == [];
    assert ConfirmedRows([row]) == if row.status == Confirmed then [row] else [];
    var s := GetConfirmedSubscribers([row], v);
    if row.status == Confirmed {
      assert s == [v.parseEmail(row.email)];
      assert s[1..] == [];
      assert ValidEmails(s) == (if s[0].Success? then [s[0].value] else []) + ValidEmails([]);
    } else {
      assert s == [];
    }
  }

  // ---------------------------------------------------------------------
  // Sending

  /** The email one subscriber gets: the issue's title and content, unchanged. */
  function Letter(recipient: string, body: BodyData): (m: Email)
    ensures m.recipient == recipient && m.subject == body.title
    ensures m.html == body.content.html && m.text == body.content.text
  {
    Email(recipient, body.title, body.content.html, body.content.text)
  }

  function Letters(recipients: seq<string>, body: BodyData): (ms: seq<Email>)
    ensures |ms| == |recipients|
    ensures forall k :: 0 <= k < |ms| ==> ms[k] == Letter(recipients[k], body)
  {
    seq(|recipients|, k requires 0 <= k < |recipients| => Letter(recipients[k], body))
  }

  /** The emails the loop sends, and the address it stopped at, if any. */
  datatype Fanned = Fanned(sent: seq<Email>, refused: Option<string>)

  /** The `for subscriber in subscribers` loop: skip invalid entries, send to
      valid ones, stop at the first refusal. */
  function Fanout(subs: seq<Result<string, string>>, body: BodyData, gateway: Gateway): Fanned
    decreases |subs|
  {
    if subs == [] then Fanned([], None)
    else
      var rest := Fanout(subs[1..], body, gateway);
      match subs[0]
      case Failure(_) => rest
      case Success(e) =>
        if gateway(Letter(e, body)) then Fanned([Letter(e, body)] + rest.sent, rest.refused)
        else Fanned([], Some(e))
  }

  lemma LettersCons(e: string, rest: seq<string>, body: BodyData)
    ensures Letters([e] + rest, body) == [Letter(e, body)] + Letters(rest, body)
  {
  }

  /** One step of the loop. */
  lemma FanoutUnfold(subs: seq<Result<string, string>>, body: BodyData, gateway: Gateway)
    requires subs != []
    ensures var rest := Fanout(subs[1..], body, gateway);
            Fanout(subs, body, gateway) ==
              if subs[0].Failure? then rest
              else if gateway(Letter(subs[0].value, body)) then Fanned([Letter(subs[0].value, body)] + rest.sent, rest.refused)
              else Fanned([], Some(subs[0].value))
  {
  }

  /** One turn of the loop, from the position `i` reached after sending `sent`. */
  lemma FanoutStep(subs: seq<Result<string, string>>, body: BodyData, gateway: Gateway, i: nat, sent: seq<Email>)
    requires i < |subs|
    requires var rest := Fanout(subs[i..], body, gateway);
             Fanout(subs, body, gateway) == Fanned(sent + rest.sent, rest.refused)
    ensures var next := Fanout(subs[i + 1..], body, gateway);
            var f := Fanout(subs, body, gateway);
            && (subs[i].Failure? ==> f == Fanned(sent + next.sent, next.refused))
            && (subs[i].Success? && gateway(Letter(subs[i].value, body)) ==>
                  f == Fanned(sent + [Letter(subs[i].value, body)] + next.sent, next.refused))
            && (subs[i].Success? && !gateway(Letter(subs[i].value, body)) ==>
                  f == Fanned(sent, Some(subs[i].value)))
  {
    FanoutUnfold(subs[i..], body, gateway);
    assert subs[i..][1..] == subs[i + 1..];
    assert subs[i..][0] == subs[i];
    var next := Fanout(subs[i + 1..], body, gateway);
    if subs[i].Success? {
      var l := Letter(subs[i].value, body);
      assert sent + ([l] + next.sent) == sent + [l] + next.sent;
      assert sent + [] == sent;
    }
  }

  predicate AllAccepted(emails: seq<string>, body: BodyData, gateway: Gateway)
  {
    forall e :: e in emails ==> gateway(Letter(e, body))
  }

  /** Without a refusal every valid address gets exactly one letter, in
      order, and there is no refusal exactly when every letter is accepted. */
  lemma {:induction false} FanoutAllAccepted(subs: seq<Result<string, string>>, body: BodyData, gateway: Gateway)
    ensures var f := Fanout(subs, body, gateway);
            && (f.refused.None? <==> AllAccepted(ValidEmails(subs), body, gateway))
            && (f.refused.None? ==> f.sent == Letters(ValidEmails(subs), body))
    decreases |subs|
  {
    if subs != [] {
      FanoutUnfold(subs, body, gateway);
      FanoutAllAccepted(subs[1..], body, gateway);
      var head := if subs[0].Success? then [subs[0].value] else [];
      assert ValidEmails(subs) == head + ValidEmails(subs[1..]);
      if subs[0].Success? {
        LettersCons(subs[0].value, ValidEmails(subs[1..]), body);
      }
    }
  }

  /** With a refusal, the loop stopped at the first valid address whose
      letter was refused, after sending one letter to each valid address
      before it. */
  lemma {:induction false} FanoutStopsAtRefusal(subs: seq<Result<string, string>>, body: BodyData, gateway: Gateway)
    requires Fanout(subs, body, gateway).refused.Some?
    ensures var f := Fanout(subs, body, gateway);
            exists k :: 0 <= k < |subs| && subs[k] == Success(f.refused.value)
              && !gateway(Letter(f.refused.value, body))
              && AllAccepted(ValidEmails(subs[..k]), body, gateway)
              && f.sent == Letters(ValidEmails(subs[..k]), body)
    decreases |subs|
  {
    var f := Fanout(subs, body, gateway);
    var rest := Fanout(subs[1..], body, gateway);
    FanoutUnfold(subs, body, gateway);
    if subs[0].Success? && !gateway(Letter(subs[0].value, body)) {
      assert subs[..0] == [];
      assert ValidEmails(subs[..0]) == [];
    } else {
      FanoutStopsAtRefusal(subs[1..], body, gateway);
      var k :| 0 <= k < |subs[1..]| && subs[1..][k] == Success(rest.refused.value)
               && !gateway(Letter(rest.refused.value, body))
               && AllAccepted(ValidEmails(subs[1..][..k]), body, gateway)
               && rest.sent == Letters(ValidEmails(subs[1..][..k]), body);
      assert subs[..k + 1][1..] == subs[1..][..k];
      assert subs[..k + 1][0] == subs[0];
      var head := if subs[0].Success? then [subs[0].value] else [];
      assert ValidEmails(subs[..k + 1]) == head + ValidEmails(subs[1..][..k]);
      if subs[0].Success? {
        LettersCons(subs[0].value, ValidEmails(subs[1..][..k]), body);
      }
      assert subs[k + 1] == Success(f.refused.value);
    }
  }

  function SendFailureContext(email: string): string
  {
    "Failed to send email to subscriber: " + email + "."
  }

  const LOAD_CONTEXT := "Failed to get confirmed subscribers from database."

  // ---------------------------------------------------------------------
  // The handler

  /** What `publish_newsletter` does, as a function of the state before the
      request. `authorization` is the request's `Authorization` header;
      `queryOk` and `loadOk` say whether the two selects run; `gateway`
      whether the provider accepts each email. */
  function PublishOutcome(t: Tables, outbox: seq<Email>, v: Validators, sha3: Sha3,
                          authorization: Option<seq<byte>>, body: BodyData,
                          queryOk: bool, loadOk: bool, gateway: Gateway): Outcome<PublishError>
  {
    match BasicAuthentication(authorization)
    case Failure(cause) => Outcome(t, outbox, Failure(AuthError(cause)))
    case Success(c) =>
      match ValidateCredentials(t.users, c, sha3, queryOk)
      case Failure(e) => Outcome(t, outbox, Failure(e))
      case Success(_) =>
        if !loadOk then Outcome(t, outbox, Failure(UnexpectedError(LOAD_CONTEXT)))
        else
          var f := Fanout(GetConfirmedSubscribers(t.subscriptions, v), body, gateway);
          Outcome(t, outbox + f.sent,
                  if f.refused.None? then Success(()) else Failure(UnexpectedError(SendFailureContext(f.refused.value))))
  }

  /** The loop of `publish_newsletter`: send the issue to each valid entry
      in turn, skipping invalid ones; on the first refusal, stop and report
      the address. */
  method SendToAll(client: EmailClient, subscribers: seq<Result<string, string>>, body: BodyData, gateway: Gateway)
    returns (refused: Option<string>)
    modifies client
    ensures client.outbox == old(client.outbox) + Fanout(subscribers, body, gateway).sent
    ensures refused == Fanout(subscribers, body, gateway).refused
  {
    ghost var sent: seq<Email> := [];
    var i := 0;
    while i < |subscribers|
      invariant 0 <= i <= |subscribers|
      invariant client.outbox == old(client.outbox) + sent
      invariant var rest := Fanout(subscribers[i..], body, gateway);
                Fanout(subscribers, body, gateway) == Fanned(sent + rest.sent, rest.refused)
    {
      FanoutStep(subscribers, body, gateway, i, sent);
      if subscribers[i].Success? {
        var email := subscribers[i].value;
        var res := client.SendEmail(email, body.title, body.content.html, body.content.text, gateway);
        if res.Failure? {
          return Some(email);
        }
        sent := sent + [Letter(email, body)];
      }
      i := i + 1;
    }
    assert subscribers[i..] == [];
    assert sent + [] == sent;
    refused := None;
  }

  /** `publish_newsletter`. */
  method PublishNewsletter(pool: Database, client: EmailClient, v: Validators, sha3: Sha3,
                           authorization: Option<seq<byte>>, body: BodyData,
                           queryOk: bool, loadOk: bool, gateway: Gateway)
    returns (r: Result<(), PublishError>)
    modifies client
    ensures var o := PublishOutcome(pool.Snapshot(), old(client.outbox), v, sha3, authorization, body,
                                    queryOk, loadOk, gateway);
            client.outbox == o.outbox && r == o.result
  {
    var credentials := BasicAuthentication(authorization);
    if credentials.Failure? {
      return Failure(AuthError(credentials.error));
    }
    var userId := ValidateCredentials(pool.users, credentials.value, sha3, queryOk);
    if userId.Failure? {
      return Failure(userId.error);
    }
    if !loadOk {
      return Failure(UnexpectedError(LOAD_CONTEXT));
    }
    var subscribers := GetConfirmedSubscribers(pool.subscriptions, v);
    var refused := SendToAll(client, subscribers, body, gateway);
    if refused.Some? {
      return Failure(UnexpectedError(SendFailureContext(refused.value)));
    }
    r := Success(());
  }

  // ---------------------------------------------------------------------
  // Properties of the handler

  /** Publishing never writes to the database, and only appends to the outbox. */
  lemma PublishOnlySends(t: Tables, outbox: seq<Email>, v: Validators, sha3: Sha3,
                         authorization: Option<seq<byte>>, body: BodyData, queryOk: bool, loadOk: bool, gateway: Gateway)
    ensures var o := PublishOutcome(t, outbox, v, sha3, authorization, body, queryOk, loadOk, gateway);
            o.tables == t && |outbox| <= |o.outbox| && o.outbox[..|outbox|] == outbox
  {
    var o := PublishOutcome(t, outbox, v, sha3, authorization, body, queryOk, loadOk, gateway);
    assert o.outbox[..|outbox|] == outbox;
  }

  /** A caller who is not authenticated, because the header is missing or
      malformed or no user matches, is answered 401 with the Basic challenge
      and nothing is sent. */
  lemma UnauthenticatedSendsNothing(t: Tables, outbox: seq<Email>, v: Validators, sha3: Sha3,
                                    authorization: Option<seq<byte>>, body: BodyData, loadOk: bool, gateway: Gateway)
    requires BasicAuthentication(authorization).Success? ==>
               ValidateCredentials(t.users, BasicAuthentication(authorization).value, sha3, true).Failure?
    ensures var o := PublishOutcome(t, outbox, v, sha3, authorization, body, true, loadOk, gateway);
            && o.tables == t && o.outbox == outbox
            && o.result.Failure? && o.result.error.AuthError?
            && Response(o.result) == HttpResponse(401, [("WWW-Authenticate", "Basic realm=\"publish\"")])
  {
  }

  /** A request without an Authorization header is refused with the
      Basic challenge. */
  lemma MissingHeaderChallenged(t: Tables, outbox: seq<Email>, v: Validators, sha3: Sha3,
                                body: BodyData, queryOk: bool, loadOk: bool, gateway: Gateway)
    ensures var o := PublishOutcome(t, outbox, v, sha3, None, body, queryOk, loadOk, gateway);
            o == Outcome(t, outbox, Failure(AuthError(MISSING_HEADER)))
            && Response(o.result) == HttpResponse(401, [WWW_AUTHENTICATE])
  {
  }

  /** A failed credential query is a 500, not a 401, and sends nothing. */
  lemma QueryFailureIsUnexpected(t: Tables, outbox: seq<Email>, v: Validators, sha3: Sha3,
                                 authorization: Option<seq<byte>>, body: BodyData, loadOk: bool, gateway: Gateway)
    requires BasicAuthentication(authorization).Success?
    ensures var o := PublishOutcome(t, outbox, v, sha3, authorization, body, false, loadOk, gateway);
            o == Outcome(t, outbox, Failure(UnexpectedError(QUERY_CONTEXT))) && Response(o.result).status == 500
  {
  }

  /** For an authenticated caller: if every letter is accepted the answer is
      200 and each recipient gets exactly one letter with the issue's title
      and content, in row order; otherwise the answer is 500 naming the
      first refused address, the letters before it stay sent and nobody
      after it gets one. */
  lemma AuthenticatedDelivery(t: Tables, outbox: seq<Email>, v: Validators, sha3: Sha3,
                              authorization: Option<seq<byte>>, body: BodyData, gateway: Gateway)
    requires BasicAuthentication(authorization).Success?
    requires ValidateCredentials(t.users, BasicAuthentication(authorization).value, sha3, true).Success?
    ensures var o := PublishOutcome(t, outbox, v, sha3, authorization, body, true, true, gateway);
            var subs := GetConfirmedSubscribers(t.subscriptions, v);
            && (o.result.Success? <==> AllAccepted(Recipients(t.subscriptions, v), body, gateway))
            && (o.result.Success? ==> o.outbox == outbox + Letters(Recipients(t.subscriptions, v), body)
                                      && Response(o.result).status == 200)
            && (o.result.Failure? ==>
                  exists k :: 0 <= k < |subs| && subs[k].Success? && !gateway(Letter(subs[k].value, body))
                    && AllAccepted(ValidEmails(subs[..k]), body, gateway)
                    && o.result == Failure(UnexpectedError(SendFailureContext(subs[k].value)))
                    && o.outbox == outbox + Letters(ValidEmails(subs[..k]), body))
  {
    var subs := GetConfirmedSubscribers(t.subscriptions, v);
    FanoutAllAccepted(subs, body, gateway);
    if Fanout(subs, body, gateway).refused.Some? {
      FanoutStopsAtRefusal(subs, body, gateway);
    }
  }

  /** Every letter the loop sends is the issue addressed to a valid entry. */
  lemma {:induction false} SentToValidEntries(subs: seq<Result<string, string>>, body: BodyData, gateway: Gateway)
    ensures forall m :: m in Fanout(subs, body, gateway).sent ==> m == Letter(m.recipient, body) && Success(m.recipient) in subs
    decreases |subs|
  {
    if subs != [] {
      FanoutUnfold(subs, body, gateway);
      SentToValidEntries(subs[1..], body, gateway);
    }
  }

  /** Every valid entry of `get_confirmed_subscriber` is the email of a confirmed row. */
  lemma ConfirmedSubscriberOrigin(rows: seq<Subscription>, v: Validators, e: string)
    requires Success(e) in GetConfirmedSubscribers(rows, v)
    ensures exists k :: 0 <= k < |rows| && rows[k].status == Confirmed && v.parseEmail(rows[k].email) == Success(e)
  {
    var subs := GetConfirmedSubscribers(rows, v);
    var c := ConfirmedRows(rows);
    var i :| 0 <= i < |subs| && subs[i] == Success(e);
    ConfirmedRowsCount(rows, c[i]);
    assert c[i] in multiset(c);
    assert c[i] in rows;
    var k :| 0 <= k < |rows| && rows[k] == c[i];
  }

  /** Whatever happens, every letter sent goes to the parsed email of a
      confirmed row and carries the issue unchanged: pending subscribers
      get nothing. */
  lemma OnlyConfirmedReceive(t: Tables, outbox: seq<Email>, v: Validators, sha3: Sha3,
                             authorization: Option<seq<byte>>, body: BodyData,
                             queryOk: bool, loadOk: bool, gateway: Gateway)
    ensures var o := PublishOutcome(t, outbox, v, sha3, authorization, body, queryOk, loadOk, gateway);
            forall m :: m in o.outbox[|outbox|..] ==>
              && m == Letter(m.recipient, body)
              && exists k :: 0 <= k < |t.subscriptions| && t.subscriptions[k].status == Confirmed
                   && v.parseEmail(t.subscriptions[k].email) == Success(m.recipient)
  {
    var o := PublishOutcome(t, outbox, v, sha3, authorization, body, queryOk, loadOk, gateway);
    var subs := GetConfirmedSubscribers(t.subscriptions, v);
    var f := Fanout(subs, body, gateway);
    assert o.outbox[|outbox|..] == [] || o.outbox[|outbox|..] == f.sent;
    SentToValidEntries(subs, body, gateway);
    forall m | m in o.outbox[|outbox|..]
      ensures exists k :: 0 <= k < |t.subscriptions| && t.subscriptions[k].status == Confirmed
                && v.parseEmail(t.subscriptions[k].email) == Success(m.recipient)
    {
      ConfirmedSubscriberOrigin(t.subscriptions, v, m.recipient);
    }
  }

  /** The newsletter tests: with only an unconfirmed subscriber the answer
      is 200 and nothing is sent; with one confirmed subscriber whose email
      is valid and accepted, exactly one letter is sent, to them. */
  lemma TestScenarios(users: map<UserKey, Uuid>, v: Validators, sha3: Sha3, authorization: Option<seq<byte>>,
                      body: BodyData, row: Subscription, gateway: Gateway)
    requires BasicAuthentication(authorization).Success?
    requires ValidateCredentials(users, BasicAuthentication(authorization).value, sha3, true).Success?
    requires AgreesWithTests(v) && row.email == "ursula_le_guin@gmail.com"
    requires gateway(Letter(row.email, body))
    ensures var o := PublishOutcome(Tables([row.(status := PendingConfirmation)], map[], users), [], v, sha3,
                                    authorization, body, true, true, gateway);
            o.outbox == [] && Response(o.result).status == 200
    ensures var o := PublishOutcome(Tables([row.(status := Confirmed)], map[], users), [], v, sha3,
                                    authorization, body, true, true, gateway);
            o.outbox == [Letter(row.email, body)] && Response(o.result).status == 200
  {
    var pending, confirmed := row.(status := PendingConfirmation), row.(status := Confirmed);
    RecipientsByRow([], [], pending, v);
    RecipientsByRow([], [], confirmed, v);
    AuthenticatedDelivery(Tables([pending], map[], users), [], v, sha3, authorization, body, gateway);
    AuthenticatedDelivery(Tables([confirmed], map[], users), [], v, sha3, authorization, body, gateway);
  }
}
