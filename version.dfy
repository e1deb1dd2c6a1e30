/** The UI variant derived from the URL (social-versity/src/context/VersionContext.jsx). */
module Versions {
  import Text
  import opened Wrappers

  /** `createContext('v1')`: the value a reader sees with no provider above it. */
  const DefaultVersion: string := "v1"

  /** `location.pathname.startsWith('/v2') ? 'v2' : 'v1'`. */
  function VersionOf(pathname: string): (v: string)
    ensures v == "v1" || v == "v2"
    ensures v == "v2" <==> |pathname| >= 3 && pathname[..3] == "/v2"
  {
    if Text.StartsWith(pathname, "/v2") then "v2" else "v1"
  }

  /** `useVersion()`: the nearest provider's value, or the default without one. */
  function UseVersion(provided: Option<string>): (v: string)
    ensures provided.None? ==> v == "v1"
    ensures provided.Some? ==> v == provided.value
  {
    match provided
    case Some(p) => p
    case None => DefaultVersion
  }

  /** Every path under a provider yields one of the two variants the provider knows; in
      particular the `/v3` routes read as v1. */
  lemma V3PathsReadAsV1(rest: string)
    ensures VersionOf("/v3" + rest) == "v1"
  {
    assert ("/v3" + rest)[2] == '3';
  }

  /** The test is a plain prefix test, not a path-segment test: `/v2x…` reads as v2. */
  lemma PrefixNotSegmentAware(rest: string)
    ensures VersionOf("/v2" + rest) == "v2"
  {
    assert ("/v2" + rest)[..3] == "/v2";
  }

  /** The root and the `/v1` routes read as v1. */
  lemma V1Paths(rest: string)
    ensures VersionOf("") == "v1"
    ensures VersionOf("/v1" + rest) == "v1"
  {
    assert ("/v1" + rest)[2] == '1';
  }
}
