/** The string helpers of Go's standard library that the modelled code calls. */
module Text {

  /** The code points `strings.TrimSpace` removes, up to U+00FF. */
  predicate IsSpace(c: char) {
    c == ' ' || '\t' <= c <= '\r' || c == '\U{85}' || c == '\U{A0}'
  }

  function TrimLeft(s: string): string {
    if s != "" && IsSpace(s[0]) then TrimLeft(s[1..]) else s
  }

  function TrimRight(s: string): string {
    if s != "" && IsSpace(s[|s| - 1]) then TrimRight(s[..|s| - 1]) else s
  }

  function TrimSpace(s: string): string {
    TrimRight(TrimLeft(s))
  }

  predicate HasPrefix(s: string, prefix: string) {
    |prefix| <= |s| && s[..|prefix|] == prefix
  }

  function TrimPrefix(s: string, prefix: string): string {
    if HasPrefix(s, prefix) then s[|prefix|..] else s
  }

  /** `truncate` of agent_api.go: trimmed and cut to a maximal length. */
  function Truncate(s: string, max: nat): string {
    var trimmed := TrimSpace(s);
    if |trimmed| <= max then trimmed else trimmed[..max]
  }

  /** `normalizeVersion`: a version without surrounding space and leading v. */
  function NormalizeVersion(version: string): string {
    TrimPrefix(TrimSpace(version), "v")
  }

  predicate SameVersion(a: string, b: string) {
    NormalizeVersion(a) == NormalizeVersion(b)
  }
}
