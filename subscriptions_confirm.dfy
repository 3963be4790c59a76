/** `GET /subscriptions/confirm` (zero2prod/src/routes/subscriptions_confirm.rs):
    look the token up and mark its subscriber `confirmed`. The token is
    never consumed, so following the link again confirms again. */
module SubscriptionsConfirm {
  import opened Common
  import opened Domain
  import opened Store
  import Subscriptions

  datatype ConfirmEmailError =
    | TokenNotFoundError(message: string)
    | UnexpectedError(context: string)

  const LOOKUP_CONTEXT := "Failed to get subscriber token from database."
  const UPDATE_CONTEXT := "Failed to update subscription."

  const NOT_FOUND_PREFIX := "Cannot find token: "

  /** The message names the token that was not found. */
  function TokenNotFoundMessage(token: string): (m: string)
    ensures |m| == |NOT_FOUND_PREFIX| + |token|
    ensures m[..|NOT_FOUND_PREFIX|] == NOT_FOUND_PREFIX && m[|NOT_FOUND_PREFIX|..] == token
  {
    NOT_FOUND_PREFIX + token
  }

  /** `ConfirmEmailError::status_code`. */
  function StatusCode(e: ConfirmEmailError): (code: nat)
    ensures code == 401 <==> e.TokenNotFoundError?
    ensures code == 500 <==> e.UnexpectedError?
  {
    match e
    case TokenNotFoundError(_) => 401
    case UnexpectedError(_) => 500
  }

  function ResponseStatus(r: Result<(), ConfirmEmailError>): nat
  {
    if r.Success? then 200 else StatusCode(r.error)
  }

  /** The select of `get_subscriber_id_from_token`. */
  function SubscriberIdFromToken(tokens: map<string, Uuid>, token: string): (r: Option<Uuid>)
    ensures r.Some? <==> token in tokens
    ensures r.Some? ==> r.value == tokens[token]
  {
    if token in tokens then Some(tokens[token]) else None
  }

  /** The update of `confirm_subscirber`: every row with that id gets status
      `confirmed`. */
  function MarkConfirmed(rows: seq<Subscription>, id: Uuid): (r: seq<Subscription>)
    ensures |r| == |rows|
  {
    seq(|rows|, k requires 0 <= k < |rows| => if rows[k].id == id then rows[k].(status := Confirmed) else rows[k])
  }

  /** Only the rows with that id change, and only their status. */
  lemma MarkConfirmedRows(rows: seq<Subscription>, id: Uuid)
    ensures forall k :: 0 <= k < |rows| ==>
      var r := MarkConfirmed(rows, id)[k];
      && r.id == rows[k].id && r.email == rows[k].email && r.name == rows[k].name
      && r.subscribedAt == rows[k].subscribedAt
      && r.status == (if rows[k].id == id then Confirmed else rows[k].status)
  {
  }

  /** A missing id makes the update a no-op. */
  lemma MarkConfirmedMissing(rows: seq<Subscription>, id: Uuid)
    requires id !in Ids(rows)
    ensures MarkConfirmed(rows, id) == rows
  {
    forall k | 0 <= k < |rows| ensures MarkConfirmed(rows, id)[k] == rows[k] {
      assert rows[k].id in Ids(rows);
    }
  }

  lemma MarkConfirmedIdempotent(rows: seq<Subscription>, id: Uuid)
    ensures MarkConfirmed(MarkConfirmed(rows, id), id) == MarkConfirmed(rows, id)
  {
  }

  lemma MarkConfirmedIds(rows: seq<Subscription>, id: Uuid)
    ensures Ids(MarkConfirmed(rows, id)) == Ids(rows)
  {
    var r := MarkConfirmed(rows, id);
    forall x | x in Ids(r) ensures x in Ids(rows) {
      var k :| 0 <= k < |r| && r[k].id == x;
      assert rows[k].id == x;
    }
    forall x | x in Ids(rows) ensures x in Ids(r) {
      var k :| 0 <= k < |rows| && rows[k].id == x;
      assert r[k].id == x;
    }
  }

  /** What `confirm` does to the tables, as a function of the state before
      the request; `lookupOk` and `updateOk` say whether the database
      executes the select and the update. */
  function ConfirmOutcome(t: Tables, outbox: seq<Email>, token: string, lookupOk: bool, updateOk: bool): Outcome<ConfirmEmailError>
  {
    if !lookupOk then Outcome(t, outbox, Failure(UnexpectedError(LOOKUP_CONTEXT)))
    else match SubscriberIdFromToken(t.tokens, token)
      case None => Outcome(t, outbox, Failure(TokenNotFoundError(TokenNotFoundMessage(token))))
      case Some(id) =>
        if updateOk then Outcome(t.(subscriptions := MarkConfirmed(t.subscriptions, id)), outbox, Success(()))
        else Outcome(t, outbox, Failure(UnexpectedError(UPDATE_CONTEXT)))
  }

  /** `get_subscriber_id_from_token`. */
  method GetSubscriberIdFromToken(pool: Database, token: string, ok: bool) returns (r: Result<Option<Uuid>, StoreError>)
    ensures ok ==> r == Success(SubscriberIdFromToken(pool.tokens, token))
    ensures !ok ==> r.Failure?
  {
    if !ok {
      return Failure(StoreError);
    }
    if token in pool.tokens {
      r := Success(Some(pool.tokens[token]));
    } else {
      r := Success(None);
    }
  }

  /** `confirm_subscirber`. */
  method ConfirmSubscriber(pool: Database, id: Uuid, ok: bool) returns (r: Result<(), StoreError>)
    modifies pool
    ensures r.Success? == ok
    ensures pool.Snapshot() == if ok then old(pool.Snapshot()).(subscriptions := MarkConfirmed(old(pool.subscriptions), id))
                               else old(pool.Snapshot())
  {
    if !ok {
      return Failure(StoreError);
    }
    pool.subscriptions := MarkConfirmed(pool.subscriptions, id);
    r := Success(());
  }

  /** `confirm`. */
  method Confirm(pool: Database, token: string, lookupOk: bool, updateOk: bool) returns (r: Result<(), ConfirmEmailError>)
    modifies pool
    ensures var o := ConfirmOutcome(old(pool.Snapshot()), [], token, lookupOk, updateOk);
            pool.Snapshot() == o.tables && r == o.result
  {
    var id := GetSubscriberIdFromToken(pool, token, lookupOk);
    if id.Failure? {
      return Failure(UnexpectedError(LOOKUP_CONTEXT));
    }
    match id.value
    case None =>
      r := Failure(TokenNotFoundError(TokenNotFoundMessage(token)));
    case Some(subscriberId) =>
      var updated := ConfirmSubscriber(pool, subscriberId, updateOk);
      if updated.Failure? {
        return Failure(UnexpectedError(UPDATE_CONTEXT));
      }
      r := Success(());
  }

  // ---------------------------------------------------------------------
  // Properties of the handler

  /** An unknown token is answered 401 naming the token, and nothing changes. */
  lemma UnknownToken(t: Tables, outbox: seq<Email>, token: string, updateOk: bool)
    requires token !in t.tokens
    ensures var o := ConfirmOutcome(t, outbox, token, true, updateOk);
            && o.tables == t && o.outbox == outbox
            && o.result == Failure(TokenNotFoundError("Cannot find token: " + token))
            && ResponseStatus(o.result) == 401
  {
  }

  /** A known token is answered 200 and confirms exactly the rows carrying
      its subscriber id: their email, name and timestamp stay, every other
      row stays as it was, and the tokens and users are untouched. */
  lemma KnownToken(t: Tables, outbox: seq<Email>, token: string)
    requires token in t.tokens
    ensures var o := ConfirmOutcome(t, outbox, token, true, true);
            && ResponseStatus(o.result) == 200
            && o.tables.tokens == t.tokens && o.tables.users == t.users && o.outbox == outbox
            && |o.tables.subscriptions| == |t.subscriptions|
            && forall k :: 0 <= k < |t.subscriptions| ==>
                 var before, after := t.subscriptions[k], o.tables.subscriptions[k];
                 && after.id == before.id && after.email == before.email && after.name == before.name
                 && after.subscribedAt == before.subscribedAt
                 && after.status == (if before.id == t.tokens[token] then Confirmed else before.status)
  {
    MarkConfirmedRows(t.subscriptions, t.tokens[token]);
  }

  /** A failed select or update is answered 500 and changes nothing. */
  lemma StoreFailure(t: Tables, outbox: seq<Email>, token: string, lookupOk: bool, updateOk: bool)
    requires !lookupOk || (token in t.tokens && !updateOk)
    ensures var o := ConfirmOutcome(t, outbox, token, lookupOk, updateOk);
            && o.tables == t && o.outbox == outbox && o.result.Failure? && o.result.error.UnexpectedError?
            && ResponseStatus(o.result) == 500
  {
  }

  /** A token whose subscriber row is gone still gets 200, and nothing changes. */
  lemma DanglingToken(t: Tables, outbox: seq<Email>, token: string)
    requires token in t.tokens && t.tokens[token] !in Ids(t.subscriptions)
    ensures ConfirmOutcome(t, outbox, token, true, true) == Outcome(t, outbox, Success(()))
  {
    MarkConfirmedMissing(t.subscriptions, t.tokens[token]);
  }

  /** Following the link twice succeeds twice and leaves the state of
      following it once. */
  lemma ConfirmTwice(t: Tables, outbox: seq<Email>, token: string)
    requires token in t.tokens
    ensures var once := ConfirmOutcome(t, outbox, token, true, true);
            var twice := ConfirmOutcome(once.tables, once.outbox, token, true, true);
            once.result.Success? && twice == once
  {
    MarkConfirmedIdempotent(t.subscriptions, t.tokens[token]);
  }

  /** Confirmation never moves a row back to `pending_confirmation`, and it
      keeps the tables consistent. */
  lemma ConfirmIsMonotone(t: Tables, outbox: seq<Email>, token: string, lookupOk: bool, updateOk: bool)
    ensures var o := ConfirmOutcome(t, outbox, token, lookupOk, updateOk);
            && |o.tables.subscriptions| == |t.subscriptions|
            && (forall k :: 0 <= k < |t.subscriptions| && t.subscriptions[k].status == Confirmed ==>
                  o.tables.subscriptions[k].status == Confirmed)
            && (Subscriptions.Consistent(t) ==> Subscriptions.Consistent(o.tables))
  {
    var o := ConfirmOutcome(t, outbox, token, lookupOk, updateOk);
    if o.tables != t {
      MarkConfirmedIds(t.subscriptions, t.tokens[token]);
      MarkConfirmedRows(t.subscriptions, t.tokens[token]);
    }
  }

  /** The double opt-in: after a successful subscription, following the
      link from its email confirms the new subscriber and no one else. */
  lemma SubscribeThenConfirm(t: Tables, outbox: seq<Email>, v: Validators, baseUrl: string,
                             form: Subscriptions.FormData, id: Uuid, now: int, draw: nat -> Subscriptions.Sample,
                             gateway: Gateway)
    requires Subscriptions.SubscribeOutcome(t, outbox, v, baseUrl, form, id, now, draw, true, true, gateway).result.Success?
    ensures var s := Subscriptions.SubscribeOutcome(t, outbox, v, baseUrl, form, id, now, draw, true, true, gateway);
            var link := Subscriptions.ConfirmationLink(baseUrl, Subscriptions.GenerateToken(draw));
            var token := Subscriptions.TokenInLink(baseUrl, link);
            && token.Some?
            && var c := ConfirmOutcome(s.tables, s.outbox, token.value, true, true);
               && ResponseStatus(c.result) == 200
               && c.tables.subscriptions == t.subscriptions +
                    [Subscription(id, v.parseEmail(form.email).value, v.parseName(form.name).value, now, Confirmed)]
  {
    var s := Subscriptions.SubscribeOutcome(t, outbox, v, baseUrl, form, id, now, draw, true, true, gateway);
    var token := Subscriptions.GenerateToken(draw);
    Subscriptions.LinkCarriesToken(baseUrl, token);
    Subscriptions.SubscribeSuccess(t, outbox, v, baseUrl, form, id, now, draw, true, true, gateway);
    var row := Subscription(id, v.parseEmail(form.email).value, v.parseName(form.name).value, now, PendingConfirmation);
    assert s.tables.tokens[token] == id;
    assert MarkConfirmed(t.subscriptions, id) == t.subscriptions by {
      MarkConfirmedMissing(t.subscriptions, id);
    }
    var c := ConfirmOutcome(s.tables, s.outbox, token, true, true);
    var after := MarkConfirmed(t.subscriptions + [row], id);
    assert after == t.subscriptions + [row.(status := Confirmed)] by {
      forall k | 0 <= k < |after| ensures after[k] == (t.subscriptions + [row.(status := Confirmed)])[k] {
        if k < |t.subscriptions| {
          assert MarkConfirmed(t.subscriptions, id)[k] == t.subscriptions[k];
        }
      }
    }
  }
}
