/** The origin policy shared by the list, delete and preflight handlers:
    the `Origin` header is echoed back when it is absent (or empty) or is
    one of the compiled-in accepted origins. */
module Cors {
  import opened Json

  const AcceptedOrigins: seq<string> := [
    "http://localhost:3000",
    "https://movies.com",
    "http://localhost:1234",
    "http://localhost:8080"
  ]

  /** `ACCEPTED_ORIGINS.includes(origin) || !origin`. A missing header
      and an empty one are both falsy, so both are allowed. The match is
      whole-string equality against the four accepted origins. */
  function IsAllowed(origin: Option<string>): (r: bool)
    ensures r <==> (|| origin == None
                    || origin == Some("")
                    || origin == Some("http://localhost:3000")
                    || origin == Some("https://movies.com")
                    || origin == Some("http://localhost:1234")
                    || origin == Some("http://localhost:8080"))
  {
    match origin
    case None => true
    case Some(o) => o in AcceptedOrigins || o == ""
  }

  /** There is no pattern matching: an accepted origin with anything at
      all appended (a path, a port digit, a further domain label) is not
      accepted. */
  lemma ExtensionRejected(o: string, suffix: string)
    requires o in AcceptedOrigins && suffix != []
    ensures !IsAllowed(Some(o + suffix))
  {
    var e := o + suffix;
    assert |e| > |o|;
    if |o| == 18 {
      assert e[4] == 's';
    }
  }

  /** Nor is a proper prefix of an accepted origin (a scheme and host
      without the port, say) accepted unless it is empty. */
  lemma PrefixRejected(o: string, n: nat)
    requires o in AcceptedOrigins && 0 < n < |o|
    ensures !IsAllowed(Some(o[..n]))
  {
    var p := o[..n];
    assert |p| < 21;
    if |p| == 18 {
      assert p[4] == ':';
    }
  }
}
