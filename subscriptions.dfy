/** `POST /subscriptions` (zero2prod/src/routes/subscriptions.rs): validate
    the form, insert a `pending_confirmation` row, store a fresh
    confirmation token for it, and email the confirmation link. The three
    writes are separate statements, not one transaction, so a failure
    part-way leaves the earlier writes in place. */
module Subscriptions {
  import opened Common
  import opened Domain
  import opened Store

  /** The urlencoded form. */
  datatype FormData = FormData(email: string, name: string)

  /** A subscriber whose name and email have passed validation. */
  datatype NewSubscriber = NewSubscriber(email: string, name: string)

  datatype SubscribeError =
    | ValidationError(message: string)
    | UnexpectedError(context: string)   // `UnexceptedError`: an anyhow error; `context` is its outermost message

  const INSERT_CONTEXT := "Failed to insert new subscriber in the database."
  const STORE_TOKEN_CONTEXT := "Failed to store the confirmation token for a new subscriber."
  const SEND_CONTEXT := "Failed to send a confirmation email."

  /** `TryFrom<FormData> for NewSubscriber`: the name is parsed first, so a
      bad name is reported even when the email is bad too. */
  function NewSubscriberFrom(v: Validators, form: FormData): (r: Result<NewSubscriber, string>)
    ensures r.Success? <==> v.parseName(form.name).Success? && v.parseEmail(form.email).Success?
    ensures r.Success? ==> r.value == NewSubscriber(v.parseEmail(form.email).value, v.parseName(form.name).value)
    ensures v.parseName(form.name).Failure? ==> r == Failure(v.parseName(form.name).error)
    ensures v.parseName(form.name).Success? && v.parseEmail(form.email).Failure? ==>
              r == Failure(v.parseEmail(form.email).error)
  {
    match v.parseName(form.name)
    case Failure(e) => Failure(e)
    case Success(name) =>
      match v.parseEmail(form.email)
      case Failure(e) => Failure(e)
      case Success(email) => Success(NewSubscriber(email, name))
  }

  // ---------------------------------------------------------------------
  // The confirmation token

  const TOKEN_LENGTH := 25

  /** One draw of `rand`'s `Alphanumeric` distribution: an index into its
      62 characters `A`-`Z`, `a`-`z`, `0`-`9`, in that order. */
  type Sample = k: nat | k < 62

  predicate IsAlphanumeric(c: char)
  {
    'A' <= c <= 'Z' || 'a' <= c <= 'z' || '0' <= c <= '9'
  }

  predicate IsToken(t: string)
  {
    |t| == TOKEN_LENGTH && forall i :: 0 <= i < |t| ==> IsAlphanumeric(t[i])
  }

  function AlphanumericChar(k: Sample): (c: char)
    ensures IsAlphanumeric(c)
  {
    if k < 26 then ('A' as int + k) as char
    else if k < 52 then ('a' as int + (k - 26)) as char
    else ('0' as int + (k - 52)) as char
  }

  /** The draw that yields a given character. */
  function SampleOf(c: char): (k: Sample)
    requires IsAlphanumeric(c)
    ensures AlphanumericChar(k) == c
  {
    if 'A' <= c <= 'Z' then c as int - 'A' as int
    else if 'a' <= c <= 'z' then c as int - 'a' as int + 26
    else c as int - '0' as int + 52
  }

  /** `generate_subscription_token`: the first 25 characters of an endless
      stream of draws (`draw(i)` is the i-th one). */
  function GenerateToken(draw: nat -> Sample): (t: string)
    ensures IsToken(t)
  {
    var t := seq(TOKEN_LENGTH, i requires 0 <= i => AlphanumericChar(draw(i)));
    assert forall i :: 0 <= i < |t| ==> t[i] == AlphanumericChar(draw(i));
    t
  }

  /** Conversely every 25-character alphanumeric string is a possible token. */
  lemma EveryTokenCanBeDrawn(t: string)
    requires IsToken(t)
    ensures exists draw: nat -> Sample :: GenerateToken(draw) == t
  {
    var draw: nat -> Sample := (i: nat) => if i < |t| && IsAlphanumeric(t[i]) then SampleOf(t[i]) else 0;
    assert GenerateToken(draw) == t;
  }

  // ---------------------------------------------------------------------
  // The confirmation email

  const CONFIRM_PATH := "/subscriptions/confirm?subscription_token="

  function ConfirmationLink(baseUrl: string, token: string): (link: string)
    ensures |link| == |baseUrl| + |CONFIRM_PATH| + |token|
  {
    baseUrl + CONFIRM_PATH + token
  }

  /** The `subscription_token` query parameter that the confirmation route
      receives when `link` is followed, for a link under `baseUrl`. */
  function TokenInLink(baseUrl: string, link: string): Option<string>
  {
    var prefix := baseUrl + CONFIRM_PATH;
    if |prefix| <= |link| && link[..|prefix|] == prefix then Some(link[|prefix|..]) else None
  }

  /** Following the emailed link hands the confirmation route exactly the
      token that was stored. */
  lemma LinkCarriesToken(baseUrl: string, token: string)
    ensures TokenInLink(baseUrl, ConfirmationLink(baseUrl, token)) == Some(token)
  {
    var prefix := baseUrl + CONFIRM_PATH;
    assert ConfirmationLink(baseUrl, token) == prefix + token;
    assert (prefix + token)[..|prefix|] == prefix;
    assert (prefix + token)[|prefix|..] == token;
  }

  /** Distinct tokens give distinct links. */
  lemma LinkInjective(baseUrl: string, t1: string, t2: string)
    requires ConfirmationLink(baseUrl, t1) == ConfirmationLink(baseUrl, t2)
    ensures t1 == t2
  {
    LinkCarriesToken(baseUrl, t1);
    LinkCarriesToken(baseUrl, t2);
  }

  const HTML_HEAD := "welcome to our newsletter!<br />Click <a href=\""
  const HTML_TAIL := "\">here</a> to confirm your subscription."
  const TEXT_HEAD := "Welcone to our newsletter!\nVisit "
  const TEXT_TAIL := " to confirm your subscription."

  function HtmlBody(link: string): string
  {
    HTML_HEAD + link + HTML_TAIL
  }

  function TextBody(link: string): string
  {
    TEXT_HEAD + link + TEXT_TAIL
  }

  /** The text between a known head and tail, if the body has that shape. */
  function Between(body: string, head: string, tail: string): Option<string>
  {
    if |head| + |tail| <= |body| && body[..|head|] == head && body[|body| - |tail|..] == tail
    then Some(body[|head|..|body| - |tail|])
    else None
  }

  lemma BetweenOf(head: string, middle: string, tail: string)
    ensures Between(head + middle + tail, head, tail) == Some(middle)
  {
    var body := head + middle + tail;
    assert body[..|head|] == head;
    assert body[|body| - |tail|..] == tail;
    assert body[|head|..|body| - |tail|] == middle;
  }

  /** The HTML and the plain-text body carry the same link. */
  lemma BodiesCarryTheLink(link: string)
    ensures Between(HtmlBody(link), HTML_HEAD, HTML_TAIL) == Some(link)
    ensures Between(TextBody(link), TEXT_HEAD, TEXT_TAIL) == Some(link)
  {
    BetweenOf(HTML_HEAD, link, HTML_TAIL);
    BetweenOf(TEXT_HEAD, link, TEXT_TAIL);
  }

  /** `send_confirmation_email`'s message. */
  function ConfirmationEmail(s: NewSubscriber, baseUrl: string, token: string): Email
  {
    var link := ConfirmationLink(baseUrl, token);
    Email(s.email, "Welcome!", HtmlBody(link), TextBody(link))
  }

  // ---------------------------------------------------------------------
  // The handler

  /** The row `insert_subscriber` writes. */
  function PendingRow(s: NewSubscriber, id: Uuid, now: int): Subscription
  {
    Subscription(id, s.email, s.name, now, PendingConfirmation)
  }

  /** `SubscribeError::status_code`. */
  function StatusCode(e: SubscribeError): (code: nat)
    ensures code == 400 <==> e.ValidationError?
    ensures code == 500 <==> e.UnexpectedError?
  {
    match e
    case ValidationError(_) => 400
    case UnexpectedError(_) => 500
  }

  /** The HTTP status of the handler's response. */
  function ResponseStatus(r: Result<(), SubscribeError>): nat
  {
    if r.Success? then 200 else StatusCode(r.error)
  }

  /** What `subscribe` does, as a function of the state before the request.
      `id`, `now` and `draw` are what `Uuid::new_v4`, `Utc::now` and
      `thread_rng` yield; `insertOk` and `tokenOk` say whether the database
      executes the two inserts, `gateway` whether the provider accepts the
      email. The id and the token are the tables' keys: an insert that
      would duplicate one fails like any other failed statement. */
  function SubscribeOutcome(t: Tables, outbox: seq<Email>, v: Validators, baseUrl: string, form: FormData,
                            id: Uuid, now: int, draw: nat -> Sample,
                            insertOk: bool, tokenOk: bool, gateway: Gateway): Outcome<SubscribeError>
  {
    match NewSubscriberFrom(v, form)
    case Failure(msg) => Outcome(t, outbox, Failure(ValidationError(msg)))
    case Success(s) =>
      if !insertOk || id in Ids(t.subscriptions) then
        Outcome(t, outbox, Failure(UnexpectedError(INSERT_CONTEXT)))
      else
        var t1 := t.(subscriptions := t.subscriptions + [PendingRow(s, id, now)]);
        var token := GenerateToken(draw);
        if !tokenOk || token in t.tokens then
          Outcome(t1, outbox, Failure(UnexpectedError(STORE_TOKEN_CONTEXT)))
        else
          var t2 := t1.(tokens := t.tokens[token := id]);
          var email := ConfirmationEmail(s, baseUrl, token);
          if gateway(email) then Outcome(t2, outbox + [email], Success(()))
          else Outcome(t2, outbox, Failure(UnexpectedError(SEND_CONTEXT)))
  }

  /** `insert_subscriber`. */
  method InsertSubscriber(pool: Database, s: NewSubscriber, id: Uuid, now: int, ok: bool)
    returns (r: Result<Uuid, StoreError>)
    modifies pool
    ensures r == if ok && id !in Ids(old(pool.subscriptions)) then Success(id) else Failure(StoreError)
    ensures pool.Snapshot() == if r.Success?
      then old(pool.Snapshot()).(subscriptions := old(pool.subscriptions) + [PendingRow(s, id, now)])
      else old(pool.Snapshot())
  {
    if ok && id !in Ids(pool.subscriptions) {
      pool.subscriptions := pool.subscriptions + [PendingRow(s, id, now)];
      r := Success(id);
    } else {
      r := Failure(StoreError);
    }
  }

  /** `store_token`. */
  method StoreToken(pool: Database, id: Uuid, token: string, ok: bool) returns (r: Result<(), StoreError>)
    modifies pool
    ensures r.Success? <==> ok && token !in old(pool.tokens)
    ensures pool.Snapshot() == if r.Success?
      then old(pool.Snapshot()).(tokens := old(pool.tokens)[token := id])
      else old(pool.Snapshot())
  {
    if ok && token !in pool.tokens {
      pool.tokens := pool.tokens[token := id];
      r := Success(());
    } else {
      r := Failure(StoreError);
    }
  }

  /** `send_confirmation_email`. */
  method SendConfirmationEmail(client: EmailClient, s: NewSubscriber, baseUrl: string, token: string, gateway: Gateway)
    returns (r: Result<(), StoreError>)
    modifies client
    ensures r.Success? == gateway(ConfirmationEmail(s, baseUrl, token))
    ensures client.outbox == if r.Success? then old(client.outbox) + [ConfirmationEmail(s, baseUrl, token)] else old(client.outbox)
  {
    var link := ConfirmationLink(baseUrl, token);
    r := client.SendEmail(s.email, "Welcome!", HtmlBody(link), TextBody(link), gateway);
  }

  /** `subscribe`, step by step. */
  method Subscribe(pool: Database, client: EmailClient, v: Validators, baseUrl: string, form: FormData,
                   id: Uuid, now: int, draw: nat -> Sample, insertOk: bool, tokenOk: bool, gateway: Gateway)
    returns (r: Result<(), SubscribeError>)
    modifies pool, client
    ensures var o := SubscribeOutcome(old(pool.Snapshot()), old(client.outbox), v, baseUrl, form,
                                      id, now, draw, insertOk, tokenOk, gateway);
            pool.Snapshot() == o.tables && client.outbox == o.outbox && r == o.result
  {
    var parsed := NewSubscriberFrom(v, form);
    if parsed.Failure? {
      return Failure(ValidationError(parsed.error));
    }
    var s := parsed.value;
    var inserted := InsertSubscriber(pool, s, id, now, insertOk);
    if inserted.Failure? {
      return Failure(UnexpectedError(INSERT_CONTEXT));
    }
    var subscriberId := inserted.value;
    var token := GenerateToken(draw);
    var stored := StoreToken(pool, subscriberId, token, tokenOk);
    if stored.Failure? {
      return Failure(UnexpectedError(STORE_TOKEN_CONTEXT));
    }
    var sent := SendConfirmationEmail(client, s, baseUrl, token, gateway);
    if sent.Failure? {
      return Failure(UnexpectedError(SEND_CONTEXT));
    }
    r := Success(());
  }

  // ---------------------------------------------------------------------
  // Properties of the handler

  /** Referential integrity of the tables: ids are unique and every token
      names an existing subscriber. */
  predicate Consistent(t: Tables)
  {
    UniqueIds(t.subscriptions) && forall tok :: tok in t.tokens ==> t.tokens[tok] in Ids(t.subscriptions)
  }

  /** An invalid form is answered 400 with the first parser's message, and
      nothing is written or sent. */
  lemma InvalidFormChangesNothing(t: Tables, outbox: seq<Email>, v: Validators, baseUrl: string, form: FormData,
                                  id: Uuid, now: int, draw: nat -> Sample, insertOk: bool, tokenOk: bool, gateway: Gateway)
    requires v.parseName(form.name).Failure? || v.parseEmail(form.email).Failure?
    ensures var o := SubscribeOutcome(t, outbox, v, baseUrl, form, id, now, draw, insertOk, tokenOk, gateway);
            && o.tables == t && o.outbox == outbox
            && o.result.Failure? && o.result.error.ValidationError?
            && ResponseStatus(o.result) == 400
            && o.result.error.message ==
                 (if v.parseName(form.name).Failure? then v.parseName(form.name).error else v.parseEmail(form.email).error)
  {
  }

  /** The forms the test suite sends are rejected with 400 by any parsers
      that agree with the tests. */
  lemma TestFormsRejected(t: Tables, outbox: seq<Email>, v: Validators, baseUrl: string,
                          id: Uuid, now: int, draw: nat -> Sample, insertOk: bool, tokenOk: bool, gateway: Gateway)
    requires AgreesWithTests(v)
    ensures forall form :: form in [FormData("ursula_le_guin@gmail.com", ""),
                                    FormData("", "le guin"),
                                    FormData("definitely-not-an-email", "le guin")] ==>
              var o := SubscribeOutcome(t, outbox, v, baseUrl, form, id, now, draw, insertOk, tokenOk, gateway);
              ResponseStatus(o.result) == 400 && o.tables == t && o.outbox == outbox
  {
  }

  /** A request succeeds exactly when every step does, and then it has
      added one pending row for the parsed subscriber, mapped the drawn
      token to that row's id, and sent one "Welcome!" email to the
      subscriber carrying the link for that token. */
  lemma SubscribeSuccess(t: Tables, outbox: seq<Email>, v: Validators, baseUrl: string, form: FormData,
                         id: Uuid, now: int, draw: nat -> Sample, insertOk: bool, tokenOk: bool, gateway: Gateway)
    ensures var o := SubscribeOutcome(t, outbox, v, baseUrl, form, id, now, draw, insertOk, tokenOk, gateway);
            var s := NewSubscriberFrom(v, form);
            var token := GenerateToken(draw);
            o.result.Success? <==>
              && s.Success? && insertOk && id !in Ids(t.subscriptions)
              && tokenOk && token !in t.tokens
              && gateway(ConfirmationEmail(s.value, baseUrl, token))
    ensures var o := SubscribeOutcome(t, outbox, v, baseUrl, form, id, now, draw, insertOk, tokenOk, gateway);
            var token := GenerateToken(draw);
            o.result.Success? ==>
              && o.tables.subscriptions == t.subscriptions +
                   [Subscription(id, v.parseEmail(form.email).value, v.parseName(form.name).value, now, PendingConfirmation)]
              && o.tables.tokens == t.tokens[token := id]
              && o.tables.users == t.users
              && |o.outbox| == |outbox| + 1 && o.outbox[..|outbox|] == outbox
              && o.outbox[|outbox|].recipient == v.parseEmail(form.email).value
              && o.outbox[|outbox|].subject == "Welcome!"
              && Between(o.outbox[|outbox|].html, HTML_HEAD, HTML_TAIL) == Some(ConfirmationLink(baseUrl, token))
              && Between(o.outbox[|outbox|].text, TEXT_HEAD, TEXT_TAIL) == Some(ConfirmationLink(baseUrl, token))
              && ResponseStatus(o.result) == 200
  {
    var o := SubscribeOutcome(t, outbox, v, baseUrl, form, id, now, draw, insertOk, tokenOk, gateway);
    if o.result.Success? {
      var token := GenerateToken(draw);
      BodiesCarryTheLink(ConfirmationLink(baseUrl, token));
      assert (outbox + [o.outbox[|outbox|]])[..|outbox|] == outbox;
    }
  }

  /** The test's form is accepted and stored as sent, pending confirmation. */
  lemma TestFormPersisted(t: Tables, outbox: seq<Email>, v: Validators, baseUrl: string,
                          id: Uuid, now: int, draw: nat -> Sample, gateway: Gateway)
    requires AgreesWithTests(v)
    requires id !in Ids(t.subscriptions) && GenerateToken(draw) !in t.tokens
    requires gateway(ConfirmationEmail(NewSubscriber("ursula_le_guin@gmail.com", "le guin"), baseUrl, GenerateToken(draw)))
    ensures var o := SubscribeOutcome(t, outbox, v, baseUrl, FormData("ursula_le_guin@gmail.com", "le guin"),
                                      id, now, draw, true, true, gateway);
            && ResponseStatus(o.result) == 200
            && o.tables.subscriptions[|t.subscriptions|] ==
                 Subscription(id, "ursula_le_guin@gmail.com", "le guin", now, PendingConfirmation)
  {
    SubscribeSuccess(t, outbox, v, baseUrl, FormData("ursula_le_guin@gmail.com", "le guin"),
                     id, now, draw, true, true, gateway);
  }

  /** The writes are not atomic: when storing the token fails the new row
      stays, and when sending fails both the row and the token stay; either
      way nothing is sent and the answer is 500. */
  lemma PartialFailures(t: Tables, outbox: seq<Email>, v: Validators, baseUrl: string, form: FormData,
                        id: Uuid, now: int, draw: nat -> Sample, insertOk: bool, tokenOk: bool, gateway: Gateway)
    requires NewSubscriberFrom(v, form).Success? && insertOk && id !in Ids(t.subscriptions)
    ensures var o := SubscribeOutcome(t, outbox, v, baseUrl, form, id, now, draw, insertOk, tokenOk, gateway);
            var row := PendingRow(NewSubscriberFrom(v, form).value, id, now);
            var token := GenerateToken(draw);
            && (!tokenOk || token in t.tokens ==>
                  && o.tables == t.(subscriptions := t.subscriptions + [row])
                  && o.outbox == outbox
                  && o.result == Failure(UnexpectedError(STORE_TOKEN_CONTEXT)))
            && (tokenOk && token !in t.tokens && !gateway(ConfirmationEmail(NewSubscriberFrom(v, form).value, baseUrl, token)) ==>
                  && o.tables == t.(subscriptions := t.subscriptions + [row], tokens := t.tokens[token := id])
                  && o.outbox == outbox
                  && o.result == Failure(UnexpectedError(SEND_CONTEXT)))
            && (o.result.Failure? ==> ResponseStatus(o.result) == 500)
  {
  }

  /** A failed insert writes and sends nothing. */
  lemma InsertFailureChangesNothing(t: Tables, outbox: seq<Email>, v: Validators, baseUrl: string, form: FormData,
                                    id: Uuid, now: int, draw: nat -> Sample, insertOk: bool, tokenOk: bool, gateway: Gateway)
    requires NewSubscriberFrom(v, form).Success?
    requires !insertOk || id in Ids(t.subscriptions)
    ensures var o := SubscribeOutcome(t, outbox, v, baseUrl, form, id, now, draw, insertOk, tokenOk, gateway);
            o == Outcome(t, outbox, Failure(UnexpectedError(INSERT_CONTEXT))) && ResponseStatus(o.result) == 500
  {
  }

  lemma IdsAppend(rows: seq<Subscription>, row: Subscription)
    ensures Ids(rows + [row]) == Ids(rows) + {row.id}
  {
    var both := rows + [row];
    forall x | x in Ids(both) ensures x in Ids(rows) + {row.id} {
      var k :| 0 <= k < |both| && both[k].id == x;
      if k < |rows| { assert rows[k] == both[k]; }
    }
    forall x | x in Ids(rows) + {row.id} ensures x in Ids(both) {
      if x == row.id { assert both[|rows|].id == x; }
      else {
        var k :| 0 <= k < |rows| && rows[k].id == x;
        assert both[k].id == x;
      }
    }
  }

  /** Whatever happens, the request only ever adds: existing rows and
      tokens stay as they were, the users table is untouched, earlier
      emails stay in the outbox, and referential integrity is kept. */
  lemma {:induction false} SubscribeOnlyAdds(t: Tables, outbox: seq<Email>, v: Validators, baseUrl: string, form: FormData,
                                             id: Uuid, now: int, draw: nat -> Sample, insertOk: bool, tokenOk: bool, gateway: Gateway)
    ensures var o := SubscribeOutcome(t, outbox, v, baseUrl, form, id, now, draw, insertOk, tokenOk, gateway);
            && |t.subscriptions| <= |o.tables.subscriptions| && o.tables.subscriptions[..|t.subscriptions|] == t.subscriptions
            && (forall tok :: tok in t.tokens ==> tok in o.tables.tokens && o.tables.tokens[tok] == t.tokens[tok])
            && o.tables.users == t.users
            && |outbox| <= |o.outbox| && o.outbox[..|outbox|] == outbox
            && (Consistent(t) ==> Consistent(o.tables))
  {
    var o := SubscribeOutcome(t, outbox, v, baseUrl, form, id, now, draw, insertOk, tokenOk, gateway);
    assert o.tables.subscriptions[..|t.subscriptions|] == t.subscriptions;
    assert o.outbox[..|outbox|] == outbox;
    if o.tables.subscriptions != t.subscriptions {
      var row := o.tables.subscriptions[|t.subscriptions|];
      IdsAppend(t.subscriptions, row);
      if Consistent(t) {
        var rows := o.tables.subscriptions;
        forall i, j | 0 <= i < j < |rows| ensures rows[i].id != rows[j].id {
          if j == |t.subscriptions| { assert rows[i].id in Ids(t.subscriptions); }
        }
      }
    }
  }
}
