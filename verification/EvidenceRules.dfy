// alred/portable_evidence.py: what an evidence package must hold, and what a reader
// may accept. Hashes, the scanner and the manifest codec are functions; member
// contents are text.
module EvidenceRules {
  import opened Ordering

  datatype Option<+T> = None | Some(value: T)

  datatype Finding = Finding(path: string, line: nat, rule: string, artifact: string, high: bool)

  /** One exported command output, under the host name that is exposed. */
  datatype Output = Output(host: string, command: string, text: string, sourceHash: string, redactions: nat)

  datatype Entry = Entry(artifact: string, command: string, path: string, exportHash: string, verbatim: bool, findings: nat)

  datatype Resource = Resource(path: string, hash: string)

  datatype Scan = Scan(status: string, scanned: nat, high: nat, low: nat, findings: seq<Finding>)

  datatype Manifest = Manifest(entries: seq<Entry>, resources: seq<Resource>, scan: Scan, verbatim: bool)

  type Files = map<string, string>

  datatype Env = Env(
    digest: string -> string,
    encode: Manifest -> string, decode: string -> Option<Manifest>,
    schema: Manifest -> bool,
    scanText: (string, string, string, bool, bool) -> seq<Finding>,   // text, artifact, path, NX-OS, running-config
    ordered: seq<Finding> -> seq<Finding>,
    safe: string -> bool)                                             // _safe_member_name

  /** What is used of the real functions: hex digests, and a manifest that is read as it was written. */
  ghost predicate EnvFits(env: Env) {
    && (forall s :: Unbroken(env.digest(s)) && ' ' !in env.digest(s))
    && (forall m :: env.decode(env.encode(m)) == Some(m))
  }

  const Prefix := "alred-evidence/"
  const ManifestName := Prefix + "package-manifest.yaml"
  const ChecksumName := Prefix + "checksums.sha256"

  const ResourcePaths := [
    "inventory/hosts.resolved.yaml", "policy/mappings.resolved.yaml", "policy/description-rules.resolved.yaml",
    "policy/roles.resolved.yaml", "policy/sites.resolved.yaml", "canonical/links_confirmed.csv",
    "canonical/links_candidates.csv", "canonical/link-diagnostics.yaml"]

  const OtherPaths := ["README.md", "analysis/STRUCTURE.md", "analysis/prompt.md", "collection-manifest.yaml"]

  /** The characters at which `str.splitlines` breaks. */
  predicate Breaks(c: char) {
    c in {'\n', '\r', '\U{000B}', '\U{000C}', '\U{001C}', '\U{001D}', '\U{001E}', '\U{0085}', '\U{2028}', '\U{2029}'}
  }

  predicate Unbroken(s: string) {
    forall i :: 0 <= i < |s| ==> !Breaks(s[i])
  }

  /** The generated members: all resources, and some of the other documents. */
  ghost predicate GeneratedFits(generated: Files) {
    && (forall p :: p in ResourcePaths ==> p in generated)
    && (forall p :: p in generated ==> p in ResourcePaths || p in OtherPaths)
  }

  // ------------------------------------------------------------------- the scan

  /** The last entry for a member. */
  ghost predicate OwnEntry(entries: seq<Entry>, name: string, k: int) {
    && 0 <= k < |entries| && Prefix + entries[k].path == name
    && forall j :: k < j < |entries| ==> Prefix + entries[j].path != name
  }

  /** What the scanner finds in a member: as an NX-OS output of its kind if it has an entry, as text otherwise. */
  ghost predicate ScanOfMember(env: Env, files: Files, entries: seq<Entry>, name: string, found: seq<Finding>)
    requires name in files
  {
    var path := if Prefix <= name then name[|Prefix|..] else name;
    && (forall k :: OwnEntry(entries, name, k) ==>
          found == env.scanText(files[name], entries[k].artifact, path, true, entries[k].command == "running_config"))
    && ((forall k :: !OwnEntry(entries, name, k)) ==> found == env.scanText(files[name], "package:" + path, path, false, false))
  }

  function Joined(parts: seq<seq<Finding>>): seq<Finding> {
    if parts == [] then [] else Joined(parts[..|parts| - 1]) + parts[|parts| - 1]
  }

  /** The findings in all members but the manifest and the checksums, in the order of their names. */
  ghost predicate IsScan(env: Env, files: Files, entries: seq<Entry>, findings: seq<Finding>) {
    exists names: seq<string>, parts: seq<seq<Finding>> ::
      && IsSorted(StrLe, files.Keys - {ManifestName, ChecksumName}, names)
      && |parts| == |names| && findings == Joined(parts)
      && forall i :: 0 <= i < |names| ==> names[i] in files && ScanOfMember(env, files, entries, names[i], parts[i])
  }

  /** A finding of high confidence is in a member that is marked as verbatim. */
  ghost predicate NothingLeaks(findings: seq<Finding>, entries: seq<Entry>) {
    forall f :: f in findings && (forall e :: e in entries && e.verbatim ==> e.path != f.path) ==> !f.high
  }

  ghost predicate IsScanResult(env: Env, findings: seq<Finding>, scanned: nat, acknowledged: bool, scan: Scan) {
    && scan.scanned == scanned && scan.findings == env.ordered(findings)
    && scan.high == |set i | 0 <= i < |findings| && findings[i].high|
    && scan.low == |set i | 0 <= i < |findings| && !findings[i].high|
    && scan.status == if acknowledged then "ACKNOWLEDGED_SENSITIVE"
                      else if exists f :: f in findings && f.high then "BLOCKED"
                      else if |findings| > 0 then "LOW_CONFIDENCE_FINDINGS" else "CLEAN"
  }

  ghost predicate HasDigest(env: Env, files: Files, path: string, digest: string) {
    Prefix + path in files && env.digest(files[Prefix + path]) == digest
  }

  // ---------------------------------------------------------------- what is written

  /** Where an output is stored: a running configuration under `verbatim` if such content was asked for. */
  ghost predicate IsPath(verbatim: bool, o: Output, path: string) {
    path == (if verbatim && o.command == "running_config" then "raw/verbatim/" else "raw/sanitized/") + o.host + "/" + o.command + ".txt"
  }

  ghost predicate IsEntry(env: Env, verbatim: bool, o: Output, findings: seq<Finding>, e: Entry) {
    && e.artifact == o.host + ":" + o.command && e.command == o.command && IsPath(verbatim, o, e.path)
    && e.exportHash == env.digest(o.text) && e.verbatim == (verbatim && o.command == "running_config")
    && e.findings == |set i | 0 <= i < |findings| && findings[i].artifact == e.artifact|
  }

  /** The member is the last output with this name, or a generated document, or the manifest. */
  ghost predicate IsMember(env: Env, m: Manifest, outputs: seq<Output>, generated: Files, name: string, text: string) {
    || (name == Prefix + "package-manifest.yaml" && text == env.encode(m))
    || (exists p :: p in generated && name == Prefix + p && text == generated[p])
    || (exists k :: IsLastOutput(m, outputs, name, k) && text == outputs[k].text)
  }

  ghost predicate IsLastOutput(m: Manifest, outputs: seq<Output>, name: string, k: int) {
    && 0 <= k < |outputs| && |m.entries| == |outputs| && name == Prefix + m.entries[k].path
    && forall j :: k < j < |outputs| ==> name != Prefix + m.entries[j].path
  }

  ghost predicate IsManifest(env: Env, verbatim: bool, outputs: seq<Output>, files: Files, findings: seq<Finding>, m: Manifest) {
    && m.verbatim == verbatim
    && |m.entries| == |outputs| && (forall i :: 0 <= i < |outputs| ==> IsEntry(env, verbatim, outputs[i], findings, m.entries[i]))
    && |m.resources| == |ResourcePaths|
    && (forall i :: 0 <= i < |ResourcePaths| ==> m.resources[i].path == ResourcePaths[i])
    && (forall i :: 0 <= i < |ResourcePaths| ==> HasDigest(env, files, m.resources[i].path, m.resources[i].hash))
    && IsScanResult(env, findings, |files.Keys - {ManifestName, ChecksumName}|, verbatim, m.scan)
  }

  /** The package of these outputs and documents: its members, their scan, and the manifest over both. */
  ghost predicate IsPackage(env: Env, verbatim: bool, outputs: seq<Output>, generated: Files,
                            files: Files, findings: seq<Finding>, m: Manifest)
  {
    && IsScan(env, files, m.entries, findings)
    && IsManifest(env, verbatim, outputs, files, findings, m)
    && ChecksumName in files
    && forall name, text :: name != ChecksumName ==>
         (name in files && files[name] == text <==> IsMember(env, m, outputs, generated, name, text))
  }

  // ---------------------------------------------------------------- what is accepted

  /** The declared members are there with their digests, under paths that differ. */
  ghost predicate Declares(env: Env, files: Files, m: Manifest) {
    && (forall e :: e in m.entries ==> HasDigest(env, files, e.path, e.exportHash))
    && (forall r :: r in m.resources ==> HasDigest(env, files, r.path, r.hash))
    && (forall i, j :: 0 <= i < j < |m.entries| ==> m.entries[i].path != m.entries[j].path)
    && (forall i, j :: 0 <= i < j < |m.resources| ==> m.resources[i].path != m.resources[j].path)
    && (forall e, r :: e in m.entries && r in m.resources ==> e.path != r.path)
  }

  /** The declared scan is that of the members, and it lets them pass. */
  ghost predicate DeclaresScan(env: Env, files: Files, m: Manifest) {
    exists findings ::
      && IsScan(env, files, m.entries, findings) && NothingLeaks(findings, m.entries)
      && IsScanResult(env, findings, |files.Keys - {ManifestName, ChecksumName}|, m.verbatim, m.scan)
  }
}
