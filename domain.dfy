/** `SubscriberName::parse` and `SubscriberEmail::parse`. Their grammar is
    not part of this model: the two parsers are values handed to the
    handlers, and only what the test suite observes of them is fixed. */
module Domain {
  import opened Common

  /** Each parser returns the validated text (what `as_ref` later gives
      back) or the error message it reports. */
  datatype Validators = Validators(
    parseName: string -> Result<string, string>,
    parseEmail: string -> Result<string, string>)

  /** What the subscription tests observe: an empty name, an empty email and
      `definitely-not-an-email` are rejected; the name `le guin` and the
      email `ursula_le_guin@gmail.com` are accepted and stored unchanged. */
  predicate AgreesWithTests(v: Validators)
  {
    && v.parseName("").Failure?
    && v.parseEmail("").Failure?
    && v.parseEmail("definitely-not-an-email").Failure?
    && v.parseName("le guin") == Success("le guin")
    && v.parseEmail("ursula_le_guin@gmail.com") == Success("ursula_le_guin@gmail.com")
  }

  /** The observed facts do not contradict each other: some pair of parsers has them all. */
  lemma TestsAreSatisfiable()
    ensures exists v :: AgreesWithTests(v)
  {
    var v := Validators(
      s => if s == "" then Failure("empty name") else Success(s),
      s => if s == "" || s == "definitely-not-an-email" then Failure("invalid email") else Success(s));
    assert AgreesWithTests(v);
  }
}
