// alred/secret_scan.py: the rules on one line, and what a scan must find in a text,
// said of the lines themselves. The regular expressions are functions on one line.
module SecretRules {

  datatype Option<+T> = None | Some(value: T)

  datatype Rules = Rules(
    nxos: bool,                                  // NX-OS running-config or cli-output
    keyBegin: string -> bool, keyEnd: string -> bool,
    common: string -> Option<string>,            // _common_high_rule
    commonLow: string -> Option<string>,         // _common_low_rule
    keyword: string -> bool,
    bannerDelimiter: string -> Option<string>,
    stripped: string -> string,
    indent: string -> nat,
    policy: string -> bool,                      // harmless password policies
    direct: string -> Option<string>,            // NX-OS rules on one line
    passwordLine: string -> bool, bgpParent: string -> bool,
    keyStringLine: string -> bool, keyParent: string -> bool, bareKey: string -> bool)

  const PrivateKey := "SECRET_PEM_PRIVATE_KEY"

  function Marker(rule: string): string {
    "! REDACTED " + rule
  }

  /** The high-confidence rules of the catalog. */
  const Catalog := {
    PrivateKey, "SECRET_GENERIC_KEY_VALUE", "SECRET_AUTHORIZATION_HEADER", "SECRET_URI_USERINFO",
    "NXOS_USERNAME_PASSWORD", "NXOS_ENABLE_SECRET", "NXOS_SNMP_COMMUNITY", "NXOS_SNMP_USER_AUTH_PRIV",
    "NXOS_RADIUS_SHARED_SECRET", "NXOS_TACACS_SHARED_SECRET", "NXOS_LDAP_PASSWORD",
    "NXOS_BGP_NEIGHBOR_PASSWORD", "NXOS_KEY_CHAIN_MATERIAL"}

  datatype Finding = Finding(rule: string, high: bool, line: nat, end: nat)

  // ---------------------------------------------------------------- private keys

  /** Line `i` is inside a private key: one begins above it and does not end between. */
  ghost predicate KeyCovers(r: Rules, lines: seq<string>, i: int)
    decreases i, 1
  {
    exists k :: KeyFrom(r, lines, k, i)
  }

  /** The private key that begins at line `k`, itself outside of any other, is open before line `i`. */
  ghost predicate KeyFrom(r: Rules, lines: seq<string>, k: int, i: int)
    decreases i, 0
  {
    0 <= k < i <= |lines| && r.keyBegin(lines[k]) && !KeyCovers(r, lines, k) && forall j :: k < j < i ==> !r.keyEnd(lines[j])
  }

  /** The private key that begins at line `i` takes the lines up to number `end`. */
  ghost predicate KeyEndsAt(r: Rules, lines: seq<string>, i: int, end: nat) {
    && 0 <= i < end <= |lines|
    && (forall j :: i < j < end - 1 ==> !r.keyEnd(lines[j]))
    && if i < end - 1 && r.keyEnd(lines[end - 1]) then true
       else end == |lines| && forall j :: i < j < |lines| ==> !r.keyEnd(lines[j])
  }

  // --------------------------------------------------------------------- banners

  /** The delimiter of the banner that is open before line `i`. */
  ghost function BannerBefore(r: Rules, lines: seq<string>, i: nat): Option<string>
    requires i <= |lines|
  {
    if i == 0 then None
    else
      var before, line := BannerBefore(r, lines, i - 1), lines[i - 1];
      if KeyCovers(r, lines, i - 1) || r.keyBegin(line) then before
      else if before.Some? then if r.stripped(line) == before.value then None else before
      else if r.nxos then r.bannerDelimiter(line) else None
  }

  // ------------------------------------------------------------------- enclosing lines

  /** A line of configuration: outside private keys and banners, no banner header, not blank and no comment. */
  ghost predicate IsConfig(r: Rules, lines: seq<string>, i: int) {
    && 0 <= i < |lines| && !KeyCovers(r, lines, i) && !r.keyBegin(lines[i])
    && BannerBefore(r, lines, i).None? && !(r.nxos && r.bannerDelimiter(lines[i]).Some?)
    && r.stripped(lines[i]) != "" && r.stripped(lines[i])[0] != '!' && r.stripped(lines[i])[0] != '#'
  }

  /** Line `k` is indented less than every line of configuration between it and line `i`. */
  ghost predicate Overhangs(r: Rules, lines: seq<string>, k: int, i: int) {
    0 <= k < i <= |lines| && IsConfig(r, lines, k) &&
    forall j :: k < j < i && IsConfig(r, lines, j) ==> r.indent(lines[k]) < r.indent(lines[j])
  }

  /** ... and less than line `i` itself. */
  ghost predicate Encloses(r: Rules, lines: seq<string>, k: int, i: int) {
    i < |lines| && Overhangs(r, lines, k, i) && r.indent(lines[k]) < r.indent(lines[i])
  }

  ghost predicate UnderBgp(r: Rules, lines: seq<string>, i: int) {
    exists k :: Encloses(r, lines, k, i) && r.bgpParent(r.stripped(lines[k]))
  }

  /** A bare `key` opens a context together with an enclosing line below it. */
  ghost predicate UnderKey(r: Rules, lines: seq<string>, i: int) {
    || (exists k :: Encloses(r, lines, k, i) && r.keyParent(r.stripped(lines[k])))
    || (exists k, l :: Encloses(r, lines, k, i) && Encloses(r, lines, l, i) && k < l && r.bareKey(r.stripped(lines[k])))
  }

  // ------------------------------------------------------------------ what is reported

  datatype Report = Report(rule: string, high: bool)

  /** What is reported of a line of configuration. */
  ghost function ConfigReport(r: Rules, lines: seq<string>, i: nat): Option<Report>
    requires i < |lines|
  {
    var line := lines[i];
    if r.nxos && !r.policy(line) && r.direct(line).Some? then Some(Report(r.direct(line).value, true))
    else if r.nxos && !r.policy(line) && r.passwordLine(line) && UnderBgp(r, lines, i) then
      Some(Report("NXOS_BGP_NEIGHBOR_PASSWORD", true))
    else if r.nxos && !r.policy(line) && r.keyStringLine(line) && UnderKey(r, lines, i) then
      Some(Report("NXOS_KEY_CHAIN_MATERIAL", true))
    else if r.common(line).Some? then Some(Report(r.common(line).value, true))
    else if r.commonLow(line).Some? then Some(Report(r.commonLow(line).value, false))
    else if r.nxos && r.keyword(line) && !r.policy(line) then Some(Report("SECRET_KEYWORD_ONLY", false))
    else None
  }

  ghost function BannerReport(r: Rules, line: string, delimiter: string): Option<Report> {
    if r.stripped(line) == delimiter then None
    else if r.common(line).Some? then Some(Report(r.common(line).value, true))
    else if r.keyword(line) then Some(Report("NXOS_BANNER_SECRET_CANDIDATE", false))
    else None
  }

  /** What is reported of a line outside private keys. */
  ghost function LineReport(r: Rules, lines: seq<string>, i: nat): Option<Report>
    requires i < |lines|
  {
    if BannerBefore(r, lines, i).Some? then BannerReport(r, lines[i], BannerBefore(r, lines, i).value)
    else if IsConfig(r, lines, i) then ConfigReport(r, lines, i)
    else None
  }

  /** The finding that begins at line `i`. */
  ghost predicate ExpectedAt(r: Rules, lines: seq<string>, i: int, f: Finding) {
    && 0 <= i < |lines| && !KeyCovers(r, lines, i)
    && if r.keyBegin(lines[i]) then f.rule == PrivateKey && f.high && f.line == i + 1 && KeyEndsAt(r, lines, i, f.end)
       else LineReport(r, lines, i).Some? && f == Finding(LineReport(r, lines, i).value.rule, LineReport(r, lines, i).value.high, i + 1, i + 1)
  }

  ghost predicate Expected(r: Rules, lines: seq<string>, f: Finding) {
    exists i :: ExpectedAt(r, lines, i, f)
  }

  /** The first `n` lines, with one marker for each private key and each line of which something high is reported. */
  ghost function Redacted(r: Rules, lines: seq<string>, n: nat): seq<string>
    requires n <= |lines|
  {
    if n == 0 then []
    else
      var before, line := Redacted(r, lines, n - 1), lines[n - 1];
      if KeyCovers(r, lines, n - 1) then before
      else if r.keyBegin(line) then before + [Marker(PrivateKey)]
      else if LineReport(r, lines, n - 1).Some? && LineReport(r, lines, n - 1).value.high
      then before + [Marker(LineReport(r, lines, n - 1).value.rule)]
      else before + [line]
  }
}
