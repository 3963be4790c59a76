/** `say_hello2` of rbe/chp01/src/lib.rs: `format!("Hello, {}!", name)`. */
module HelloWorld {

  const GREETING := "Hello, "

  /** `say_hello2`: the greeting, the name and an exclamation mark; the
      name can be read back between them. */
  function SayHello2(name: string): (s: string)
    ensures |s| == |name| + 8
    ensures s[..7] == GREETING && s[|s| - 1] == '!'
    ensures s[7..|s| - 1] == name
  {
    GREETING + name + "!"
  }

  /** Different names get different greetings. */
  lemma SayHello2Injective(a: string, b: string)
    requires SayHello2(a) == SayHello2(b)
    ensures a == b
  {
    var s := SayHello2(a);
    assert a == s[7..|s| - 1];
  }

  /** The documentation example. */
  lemma SayHello2Example()
    ensures SayHello2("looper") == "Hello, looper!"
  {
  }
}

/** `sayhello2` of lineup/webserver/src/helpers.rs, the same `format!`. */
module WebserverHelpers {
  import HelloWorld

  /** `sayhello2`: the greeting, the name and an exclamation mark. */
  function Sayhello2(name: string): (s: string)
    ensures |s| == |name| + 8
    ensures s[..7] == "Hello, " && s[|s| - 1] == '!'
    ensures s[7..|s| - 1] == name
  {
    "Hello, " + name + "!"
  }

  /** The web server's greeting is the one of the rbe crate. */
  lemma SameAsSayHello2(name: string)
    ensures Sayhello2(name) == HelloWorld.SayHello2(name)
  {
  }

  /** The unit test. */
  lemma Sayhello2Example()
    ensures Sayhello2("Scrat") == "Hello, Scrat!"
  {
  }
}
