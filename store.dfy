/** The state the handlers share: the three Postgres tables behind the
    connection pool, and the email gateway, seen as the list of emails it
    has accepted. SQL, pooling and the provider's SDK are not modelled;
    whether a statement or a send fails is an input to each handler. */
module Store {
  import opened Common

  /** A `uuid` (subscriber id or user id). */
  type Uuid = nat

  /** The `status` column. */
  datatype Status = PendingConfirmation | Confirmed

  /** A row of `subscriptions`: (id, email, name, subscribed_at, status). */
  datatype Subscription = Subscription(id: Uuid, email: string, name: string, subscribedAt: int, status: Status)

  /** A `users` row, keyed by (username, password_hash); usernames are kept
      as their UTF-8 bytes, password hashes as lower-case hex text. */
  type UserKey = (seq<byte>, string)

  datatype Tables = Tables(
    subscriptions: seq<Subscription>,   // in the order the rows were inserted, taken as the order selects return
    tokens: map<string, Uuid>,          // subscription_tokens: token -> subscriber_id
    users: map<UserKey, Uuid>)          // users: (username, password_hash) -> user_id

  /** One email handed to the gateway. */
  datatype Email = Email(recipient: string, subject: string, html: string, text: string)

  /** The provider's answer for each email: accepted (and delivered) or refused. */
  type Gateway = Email -> bool

  /** A failed SQL statement or a refused send. */
  datatype StoreError = StoreError

  /** What a handler leaves behind: the tables, the emails sent so far, and its result. */
  datatype Outcome<E> = Outcome(tables: Tables, outbox: seq<Email>, result: Result<(), E>)

  function Ids(rows: seq<Subscription>): set<Uuid>
  {
    set k | 0 <= k < |rows| :: rows[k].id
  }

  /** The id column is a primary key. */
  predicate UniqueIds(rows: seq<Subscription>)
  {
    forall i, j :: 0 <= i < j < |rows| ==> rows[i].id != rows[j].id
  }

  class Database {
    var subscriptions: seq<Subscription>
    var tokens: map<string, Uuid>
    var users: map<UserKey, Uuid>

    /** A freshly migrated database with the given operator accounts. */
    constructor (users: map<UserKey, Uuid>)
      ensures Snapshot() == Tables([], map[], users)
    {
      this.subscriptions := [];
      this.tokens := map[];
      this.users := users;
    }

    /** The three tables as a value. */
    function Snapshot(): Tables
      reads this
    {
      Tables(subscriptions, tokens, users)
    }
  }

  class EmailClient {
    var outbox: seq<Email>

    constructor ()
      ensures outbox == []
    {
      outbox := [];
    }

    /** `send_email`: an email the provider accepts is delivered, one it
        refuses is not, and the caller learns which. */
    method SendEmail(recipient: string, subject: string, html: string, text: string, gateway: Gateway)
      returns (r: Result<(), StoreError>)
      modifies this
      ensures r.Success? == gateway(Email(recipient, subject, html, text))
      ensures outbox == if r.Success? then old(outbox) + [Email(recipient, subject, html, text)] else old(outbox)
    {
      var email := Email(recipient, subject, html, text);
      if gateway(email) {
        outbox := outbox + [email];
        r := Success(());
      } else {
        r := Failure(StoreError);
      }
    }
  }
}
