/** Endpoint resolution for the outbound POST: which URL is posted to and
    which address is probed before posting, from the per-topic configuration. */
module Endpoint {
  import opened Text

  /** The application configuration as far as endpoint resolution reads it:
      each value as Go's `%v` verb renders it. */
  type Config = map<string, string>

  /** What `%v` renders for the nil interface a missing map key yields. */
  const NilRendering: string := "<nil>"
  /** Path appended to the endpoint for every POST. */
  const MetadataPath: string := "/metadata"
  /** Removed from the endpoint to obtain the probe address. */
  const PlainScheme: string := "http://"
  /** Rewritten, at its first occurrence, to `SecureScheme` in secured mode. */
  const InsecureWord: string := "http"
  const SecureScheme: string := "https"

  /** The configured endpoint of `topic`; a topic without an entry renders as
      the nil interface does. */
  function EndpointOf(cfg: Config, topic: string): (e: string)
    ensures topic in cfg ==> e == cfg[topic]
    ensures topic !in cfg ==> e == NilRendering
  {
    if topic in cfg then cfg[topic] else NilRendering
  }

  /** The host:port that the readiness probe dials: the configured endpoint
      with its first "http://" removed and nothing else changed. It does not
      depend on the operating mode. */
  function DialAddress(endpoint: string): (a: string)
    ensures !Contains(endpoint, PlainScheme) ==> a == endpoint
    ensures forall i: nat {:trigger IsFirstOccurrence(endpoint, PlainScheme, i)} ::
      IsFirstOccurrence(endpoint, PlainScheme, i) ==> a == endpoint[..i] + endpoint[i + |PlainScheme|..]
  {
    ReplaceFirst(endpoint, PlainScheme, "")
  }

  /** The URL the event is posted to. In development mode it is the endpoint
      unchanged; in secured mode only the first "http" becomes "https". */
  function PostUrl(endpoint: string, devMode: bool): (u: string)
    ensures devMode ==> u == endpoint + MetadataPath
    ensures !devMode && !Contains(endpoint, InsecureWord) ==> u == endpoint + MetadataPath
    ensures !devMode ==> forall i: nat {:trigger IsFirstOccurrence(endpoint, InsecureWord, i)} ::
      IsFirstOccurrence(endpoint, InsecureWord, i) ==>
        u == endpoint[..i] + SecureScheme + endpoint[i + |InsecureWord|..] + MetadataPath
  {
    var base := if devMode then endpoint else ReplaceFirst(endpoint, InsecureWord, SecureScheme);
    base + MetadataPath
  }

  /** For the usual "http://host:port" endpoint the probe dials "host:port",
      development mode posts to the endpoint, and secured mode posts to the
      same host over "https://". */
  lemma PlainEndpoint(rest: string)
    ensures DialAddress(PlainScheme + rest) == rest
    ensures PostUrl(PlainScheme + rest, true) == PlainScheme + rest + MetadataPath
    ensures PostUrl(PlainScheme + rest, false) == "https://" + rest + MetadataPath
  {
    var e := PlainScheme + rest;
    PrefixIsFirstOccurrence(PlainScheme, rest);
    ReplaceFirstAt("", PlainScheme, rest, "");
    assert "" + PlainScheme + rest == e;
    assert e == InsecureWord + ("://" + rest);
    PrefixIsFirstOccurrence(InsecureWord, "://" + rest);
    ReplaceFirstAt("", InsecureWord, "://" + rest, SecureScheme);
    assert "" + SecureScheme + ("://" + rest) == "https://" + rest;
  }

  /** An endpoint that is already "https://..." would be posted to
      "httpss://..." in secured mode; unless "http://" appears later in it,
      its probe address keeps the scheme, which cannot be dialled, so the
      task stalls in the probe. */
  lemma SecuredRewriteOfHttpsEndpoint(rest: string)
    requires !Contains("https://" + rest, PlainScheme)
    ensures PostUrl("https://" + rest, false) == "httpss://" + rest + MetadataPath
    ensures DialAddress("https://" + rest) == "https://" + rest
  {
    var e := "https://" + rest;
    assert e == InsecureWord + ("s://" + rest);
    PrefixIsFirstOccurrence(InsecureWord, "s://" + rest);
    ReplaceFirstAt("", InsecureWord, "s://" + rest, SecureScheme);
    assert "" + SecureScheme + ("s://" + rest) == "httpss://" + rest;
  }
}
