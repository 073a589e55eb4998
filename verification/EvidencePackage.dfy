// alred/portable_evidence.py: assembling an evidence package, and reading it back
// with every integrity check and the repeated secret scan.
module EvidencePackage {
  import opened Ordering
  import opened EvidenceRules

  function Full(relative: string): string { Prefix + relative }

  function Relative(name: string): string {
    if Prefix <= name then name[|Prefix|..] else name
  }

  // -------------------------------------------------------------- lines and fields

  /** Up to the first break. */
  function LineEnd(s: string): (n: nat)
    ensures n <= |s|
  {
    if s == "" || Breaks(s[0]) then 0 else 1 + LineEnd(s[1..])
  }

  /** `str.splitlines()` */
  function SplitLines(s: string): seq<string>
    decreases |s|
  {
    if s == "" then []
    else
      var n := LineEnd(s);
      if n == |s| then [s]
      else
        var next := if s[n] == '\r' && n + 1 < |s| && s[n + 1] == '\n' then n + 2 else n + 1;
        [s[..n]] + SplitLines(s[next..])
  }

  /** `line.partition("  ")`, if the separator is there. */
  function Partition(line: string): Option<(string, string)> {
    if |line| < 2 then None
    else if line[0] == ' ' && line[1] == ' ' then Some(("", line[2..]))
    else
      match Partition(line[1..])
      case None => None
      case Some((head, tail)) => Some(([line[0]] + head, tail))
  }

  lemma {:induction false} LineEndOf(line: string, rest: string)
    requires Unbroken(line) && (rest == "" || Breaks(rest[0]))
    ensures LineEnd(line + rest) == |line|
  {
    if line != "" {
      assert (line + rest)[1..] == line[1..] + rest;
      LineEndOf(line[1..], rest);
    }
  }

  /** A line ends at each break, and `\r\n` is one; a last line needs none. */
  lemma SplitAtBreak(line: string, end: string, rest: string)
    requires Unbroken(line)
    requires end == "\r\n" || (|end| == 1 && Breaks(end[0]) && !(end[0] == '\r' && |rest| > 0 && rest[0] == '\n'))
    ensures SplitLines(line + end + rest) == [line] + SplitLines(rest)
    ensures SplitLines(line) == if line == "" then [] else [line]
  {
    var s := line + end + rest;
    assert s == line + (end + rest);
    LineEndOf(line, end + rest);
    assert s[|line|] == end[0] && s[..|line|] == line && s[|line| + |end|..] == rest;
    assert |end| == 1 && |rest| > 0 ==> s[|line| + 1] == rest[0];
    assert line + "" == line;
    LineEndOf(line, "");
  }

  lemma SplitFirstLine(line: string, rest: string)
    requires Unbroken(line)
    ensures SplitLines(line + "\n" + rest) == [line] + SplitLines(rest)
  {
    SplitAtBreak(line, "\n", rest);
  }

  lemma {:induction false} PartitionOf(head: string, tail: string)
    requires ' ' !in head
    ensures Partition(head + "  " + tail) == Some((head, tail))
  {
    var s := head + "  " + tail;
    if head == "" {
      assert s[2..] == tail;
    } else {
      assert s[1..] == head[1..] + "  " + tail;
      PartitionOf(head[1..], tail);
      assert [head[0]] + head[1..] == head;
    }
  }

  /** The fields of a line have no breaks if the line has none. */
  lemma {:induction false} PartitionUnbroken(line: string)
    requires Unbroken(line) && Partition(line).Some?
    ensures Unbroken(Partition(line).value.1)
  {
    if !(line[0] == ' ' && line[1] == ' ') {
      PartitionUnbroken(line[1..]);
    }
  }

  lemma {:induction false} LineEndUnbroken(s: string)
    ensures Unbroken(s[..LineEnd(s)])
  {
    if s != "" && !Breaks(s[0]) {
      LineEndUnbroken(s[1..]);
      forall i | 0 <= i < LineEnd(s) ensures !Breaks(s[i]) {
        if i > 0 {
          assert s[1..][..LineEnd(s[1..])][i - 1] == s[i];
        }
      }
    }
  }

  lemma {:induction false} SplitLinesUnbroken(s: string)
    ensures forall l :: l in SplitLines(s) ==> Unbroken(l)
    decreases |s|
  {
    if s != "" {
      var n := LineEnd(s);
      LineEndUnbroken(s);
      if n == |s| {
        assert s[..n] == s;
      } else {
        SplitLinesUnbroken(s[if s[n] == '\r' && n + 1 < |s| && s[n + 1] == '\n' then n + 2 else n + 1..]);
      }
    }
  }

  // ------------------------------------------------------------------ checksums

  function ChecksumLine(env: Env, files: Files, name: string): string
    requires name in files
  {
    env.digest(files[name]) + "  " + Relative(name)
  }

  /** checksums.sha256: a line for each name. */
  function Checksums(env: Env, files: Files, names: seq<string>): string
    requires forall n :: n in names ==> n in files
  {
    if names == [] then ""
    else ChecksumLine(env, files, names[0]) + "\n" + Checksums(env, files, names[1..])
  }

  /** The digests a reader expects, by member name; None for a line without separator. */
  function Expected(lines: seq<string>): Option<Files> {
    if lines == [] then Some(map[])
    else
      match (Expected(lines[..|lines| - 1]), Partition(lines[|lines| - 1]))
      case (Some(m), Some((digest, relative))) => Some(m[Full(relative) := digest])
      case _ => None
  }

  lemma {:induction false} ChecksumLinesAre(env: Env, files: Files, names: seq<string>)
    requires EnvFits(env) && (forall n :: n in names ==> n in files && Unbroken(Relative(n)))
    ensures SplitLines(Checksums(env, files, names)) == LinesFor(env, files, names)
  {
    if names != [] {
      assert names[0] in names;
      ChecksumLinesAre(env, files, names[1..]);
      SplitFirstLine(ChecksumLine(env, files, names[0]), Checksums(env, files, names[1..]));
      assert LinesFor(env, files, names) == [ChecksumLine(env, files, names[0])] + LinesFor(env, files, names[1..]);
    }
  }

  function LinesFor(env: Env, files: Files, names: seq<string>): seq<string>
    requires forall n :: n in names ==> n in files
  {
    seq(|names|, i requires 0 <= i < |names| => ChecksumLine(env, files, names[i]))
  }

  function Digests(env: Env, files: Files, names: seq<string>): Files
    requires forall n :: n in names ==> n in files
  {
    map n | n in names :: env.digest(files[n])
  }

  lemma ExpectedLine(env: Env, files: Files, lines: seq<string>, name: string)
    requires EnvFits(env) && name in files && Full(Relative(name)) == name && Expected(lines).Some?
    ensures Expected(lines + [ChecksumLine(env, files, name)]) == Some(Expected(lines).value[name := env.digest(files[name])])
  {
    var more := lines + [ChecksumLine(env, files, name)];
    assert more[..|lines|] == lines;
    PartitionOf(env.digest(files[name]), Relative(name));
  }

  /** Reading the checksum lines back gives the digest of every named member. */
  lemma {:induction false} ExpectedFor(env: Env, files: Files, names: seq<string>)
    requires EnvFits(env) && (forall n :: n in names ==> n in files && Full(Relative(n)) == n)
    ensures Expected(LinesFor(env, files, names)) == Some(Digests(env, files, names))
  {
    if names == [] {
      assert Digests(env, files, []) == map[];
    } else {
      var k := |names| - 1;
      ExpectedFor(env, files, names[..k]);
      LastName(env, files, names);
      ExpectedLine(env, files, LinesFor(env, files, names[..k]), names[k]);
    }
  }

  lemma LastName(env: Env, files: Files, names: seq<string>)
    requires names != [] && (forall n :: n in names ==> n in files)
    ensures var k := |names| - 1;
            && LinesFor(env, files, names) == LinesFor(env, files, names[..k]) + [ChecksumLine(env, files, names[k])]
            && Digests(env, files, names) == Digests(env, files, names[..k])[names[k] := env.digest(files[names[k]])]
  {
    var k := |names| - 1;
    assert names[k] in names && names == names[..k] + [names[k]];
  }

  /** Whatever the lines say, the expected member names have no breaks. */
  lemma {:induction false} ExpectedUnbroken(lines: seq<string>)
    requires forall l :: l in lines ==> Unbroken(l)
    ensures Expected(lines).Some? ==> forall n :: n in Expected(lines).value ==> Prefix <= n && Unbroken(Relative(n))
  {
    if lines != [] {
      var k := |lines| - 1;
      ExpectedUnbroken(lines[..k]);
      assert lines[k] in lines;
      if Partition(lines[k]).Some? {
        PartitionUnbroken(lines[k]);
        assert Relative(Full(Partition(lines[k]).value.1)) == Partition(lines[k]).value.1;
      }
    }
  }

  // ------------------------------------------------------------------- the scan

  /** The entry of a member, if it has one; a later entry for the same path would win. */
  function EntryAt(entries: seq<Entry>, name: string): Option<Entry> {
    if entries == [] then None
    else if Full(entries[|entries| - 1].path) == name then Some(entries[|entries| - 1])
    else EntryAt(entries[..|entries| - 1], name)
  }

  function ScanMember(env: Env, files: Files, entries: seq<Entry>, name: string): seq<Finding>
    requires name in files
  {
    var entry := EntryAt(entries, name);
    env.scanText(files[name], if entry.Some? then entry.value.artifact else "package:" + Relative(name), Relative(name),
                 entry.Some?, entry.Some? && entry.value.command == "running_config")
  }

  function ScanNames(env: Env, files: Files, entries: seq<Entry>, names: seq<string>): seq<Finding>
    requires forall n :: n in names ==> n in files
  {
    if names == [] then []
    else ScanNames(env, files, entries, names[..|names| - 1]) + ScanMember(env, files, entries, names[|names| - 1])
  }

  const Integrity := {ManifestName, ChecksumName}

  function Content(files: Files): seq<string> {
    StrOrder();
    Sorted(StrLe, files.Keys - Integrity)
  }

  /** The findings in every content member, in the order of their names. */
  function ScanFiles(env: Env, files: Files, entries: seq<Entry>): seq<Finding> {
    ScanNames(env, files, entries, Content(files))
  }

  function CountOf(findings: seq<Finding>, high: bool): nat {
    if findings == [] then 0
    else CountOf(findings[..|findings| - 1], high) + if findings[|findings| - 1].high == high then 1 else 0
  }

  /** `build_scan_result` when every member was scanned. */
  function ScanResult(env: Env, findings: seq<Finding>, scanned: nat, acknowledged: bool): Scan {
    var high, low := CountOf(findings, true), CountOf(findings, false);
    Scan(if acknowledged then "ACKNOWLEDGED_SENSITIVE" else if high > 0 then "BLOCKED"
         else if low > 0 then "LOW_CONFIDENCE_FINDINGS" else "CLEAN", scanned, high, low, env.ordered(findings))
  }

  /** High findings only in members marked verbatim. */
  predicate Allowed(findings: seq<Finding>, entries: seq<Entry>) {
    forall f :: f in findings && f.high ==> exists e :: e in entries && e.verbatim && e.path == f.path
  }

  /** The same entries up to the finding counts. */
  ghost predicate SameButCounts(a: seq<Entry>, b: seq<Entry>) {
    |a| == |b| && forall i :: 0 <= i < |a| ==> a[i].(findings := b[i].findings) == b[i]
  }

  lemma {:induction false} EntryAtSame(a: seq<Entry>, b: seq<Entry>, name: string)
    requires SameButCounts(a, b)
    ensures EntryAt(a, name).Some? <==> EntryAt(b, name).Some?
    ensures EntryAt(a, name).Some? ==> EntryAt(a, name).value.(findings := EntryAt(b, name).value.findings) == EntryAt(b, name).value
  {
    if a != [] {
      EntryAtSame(a[..|a| - 1], b[..|b| - 1], name);
    }
  }

  /** The scan looks at members and at entries up to their counts, and at nothing else. */
  lemma {:induction false} ScanSame(env: Env, files: Files, more: Files, a: seq<Entry>, b: seq<Entry>, names: seq<string>)
    requires SameButCounts(a, b)
    requires forall n :: n in names ==> n in files && n in more && files[n] == more[n]
    ensures ScanNames(env, files, a, names) == ScanNames(env, more, b, names)
  {
    if names != [] {
      var k := |names| - 1;
      assert names[k] in names;
      ScanSame(env, files, more, a, b, names[..k]);
      EntryAtSame(a, b, names[k]);
    }
  }

  lemma AllowedSame(findings: seq<Finding>, a: seq<Entry>, b: seq<Entry>)
    requires SameButCounts(a, b) && Allowed(findings, a)
    ensures Allowed(findings, b)
  {
    forall f | f in findings && f.high ensures exists e :: e in b && e.verbatim && e.path == f.path {
      var e :| e in a && e.verbatim && e.path == f.path;
      var i :| 0 <= i < |a| && a[i] == e;
      assert b[i] in b;
    }
  }

  // ----------------------------------------------------------------- the producer

  function PathOf(verbatim: bool, o: Output): string {
    "raw/" + (if IsVerbatim(verbatim, o) then "verbatim" else "sanitized") + "/" + o.host + "/" + o.command + ".txt"
  }

  predicate IsVerbatim(verbatim: bool, o: Output) {
    verbatim && o.command == "running_config"
  }

  function EntryOf(env: Env, verbatim: bool, o: Output): Entry {
    Entry(o.host + ":" + o.command, o.command, PathOf(verbatim, o), env.digest(o.text), IsVerbatim(verbatim, o), 0)
  }

  function EntriesOf(env: Env, verbatim: bool, outputs: seq<Output>): seq<Entry> {
    seq(|outputs|, i requires 0 <= i < |outputs| => EntryOf(env, verbatim, outputs[i]))
  }

  /** The exported outputs by member name; a second output at the same path replaces the first. */
  function OutputFiles(verbatim: bool, outputs: seq<Output>): Files {
    if outputs == [] then map[]
    else
      var last := outputs[|outputs| - 1];
      OutputFiles(verbatim, outputs[..|outputs| - 1])[Full(PathOf(verbatim, last)) := last.text]
  }

  function Named(generated: Files): (r: Files)
    ensures forall p :: p in generated ==> Full(p) in r && r[Full(p)] == generated[p]
    ensures forall n :: n in r ==> n == Full(Relative(n)) && Relative(n) in generated
  {
    assert forall p :: Relative(Full(p)) == p;
    map n | n in (set p | p in generated :: Full(p)) :: generated[Relative(n)]
  }

  function ResourcesOf(env: Env, files: Files): seq<Resource>
    requires forall p :: p in ResourcePaths ==> Full(p) in files
  {
    seq(|ResourcePaths|, i requires 0 <= i < |ResourcePaths| =>
      assert ResourcePaths[i] in ResourcePaths; Resource(ResourcePaths[i], env.digest(files[Full(ResourcePaths[i])])))
  }

  function FindingsAt(findings: seq<Finding>, artifact: string): nat {
    if findings == [] then 0
    else FindingsAt(findings[..|findings| - 1], artifact) + if findings[|findings| - 1].artifact == artifact then 1 else 0
  }

  function Counted(entries: seq<Entry>, findings: seq<Finding>): (r: seq<Entry>)
    ensures SameButCounts(entries, r)
  {
    seq(|entries|, i requires 0 <= i < |entries| => entries[i].(findings := FindingsAt(findings, entries[i].artifact)))
  }

  /** All members but the two with integrity metadata. */
  function Body(verbatim: bool, outputs: seq<Output>, generated: Files): Files {
    OutputFiles(verbatim, outputs) + Named(generated)
  }

  function ManifestOf(env: Env, verbatim: bool, outputs: seq<Output>, generated: Files): Manifest
    requires GeneratedFits(generated)
  {
    var body, entries := Body(verbatim, outputs, generated), EntriesOf(env, verbatim, outputs);
    var findings := ScanFiles(env, body, entries);
    Manifest(Counted(entries, findings), ResourcesOf(env, body),
             ScanResult(env, findings, |Content(body)|, verbatim), verbatim)
  }

  function WithManifest(env: Env, verbatim: bool, outputs: seq<Output>, generated: Files): Files
    requires GeneratedFits(generated)
  {
    Body(verbatim, outputs, generated)[ManifestName := env.encode(ManifestOf(env, verbatim, outputs, generated))]
  }

  function AllNames(files: Files): (r: seq<string>)
    ensures forall n :: n in r <==> n in files
  {
    StrOrder();
    Sorted(StrLe, files.Keys)
  }

  function Package(env: Env, verbatim: bool, outputs: seq<Output>, generated: Files): Files
    requires GeneratedFits(generated)
  {
    var files := WithManifest(env, verbatim, outputs, generated);
    files[ChecksumName := Checksums(env, files, AllNames(files))]
  }

  /** The package is written: the scan lets it pass, the manifest is valid, the names are safe. */
  predicate Written(env: Env, verbatim: bool, outputs: seq<Output>, generated: Files)
    requires GeneratedFits(generated)
  {
    var body, entries := Body(verbatim, outputs, generated), EntriesOf(env, verbatim, outputs);
    && Allowed(ScanFiles(env, body, entries), entries)
    && env.schema(ManifestOf(env, verbatim, outputs, generated))
    && forall n :: n in Package(env, verbatim, outputs, generated) ==> env.safe(n)
  }

  // ------------------------------------------------------------------- the reader

  ghost predicate DistinctPaths(entries: seq<Entry>) {
    forall i, j :: 0 <= i < j < |entries| ==> entries[i].path != entries[j].path
  }

  predicate EntryIntact(env: Env, files: Files, e: Entry) {
    Full(e.path) in files && env.digest(files[Full(e.path)]) == e.exportHash
  }

  predicate ResourceIntact(env: Env, files: Files, r: Resource) {
    Full(r.path) in files && env.digest(files[Full(r.path)]) == r.hash
  }

  ghost predicate ResourcesFit(entries: seq<Entry>, resources: seq<Resource>) {
    && (forall i, j :: 0 <= i < j < |resources| ==> resources[i].path != resources[j].path)
    && (forall r, e :: r in resources && e in entries ==> r.path != e.path)
  }

  /** The checksum file lists exactly the other members, each with its digest. */
  ghost predicate ChecksumsFit(env: Env, files: Files) {
    && ChecksumName in files
    && var expected := Expected(SplitLines(files[ChecksumName]));
       && expected.Some?
       && expected.value.Keys == files.Keys - {ChecksumName}
       && forall n :: n in expected.value ==> env.digest(files[n]) == expected.value[n]
  }

  /** What `_read_archive` accepts. */
  ghost predicate Accepted(env: Env, files: Files, m: Manifest) {
    && ManifestName in files && env.decode(files[ManifestName]) == Some(m) && env.schema(m)
    && ChecksumsFit(env, files)
    && DistinctPaths(m.entries) && (forall e :: e in m.entries ==> EntryIntact(env, files, e))
    && ResourcesFit(m.entries, m.resources) && (forall r :: r in m.resources ==> ResourceIntact(env, files, r))
  }

  /** What `_verify_declared_secret_scan` accepts. */
  predicate ScanVerified(env: Env, files: Files, m: Manifest) {
    var findings := ScanFiles(env, files, m.entries);
    Allowed(findings, m.entries) && ScanResult(env, findings, |Content(files)|, m.verbatim) == m.scan
  }

  // ------------------------------------------------------- producer and reader agree

  lemma {:induction false} OutputFilesAre(verbatim: bool, outputs: seq<Output>)
    ensures forall n :: n in OutputFiles(verbatim, outputs) <==> exists o :: o in outputs && n == Full(PathOf(verbatim, o))
  {
    if outputs != [] {
      var k := |outputs| - 1;
      OutputFilesAre(verbatim, outputs[..k]);
      assert outputs == outputs[..k] + [outputs[k]];
    }
  }

  /** With distinct paths, every output is stored under its own name. */
  lemma {:induction false} OutputStored(env: Env, verbatim: bool, outputs: seq<Output>, i: nat)
    requires i < |outputs| && DistinctPaths(EntriesOf(env, verbatim, outputs))
    ensures Full(PathOf(verbatim, outputs[i])) in OutputFiles(verbatim, outputs)
    ensures OutputFiles(verbatim, outputs)[Full(PathOf(verbatim, outputs[i]))] == outputs[i].text
  {
    var k := |outputs| - 1;
    var entries := EntriesOf(env, verbatim, outputs);
    if i < k {
      assert entries[i].path != entries[k].path;
      assert Relative(Full(entries[i].path)) == entries[i].path && Relative(Full(entries[k].path)) == entries[k].path;
      forall a, b | 0 <= a < b < k ensures EntriesOf(env, verbatim, outputs[..k])[a].path != EntriesOf(env, verbatim, outputs[..k])[b].path {
        assert entries[a].path != entries[b].path;
      }
      OutputStored(env, verbatim, outputs[..k], i);
    }
  }

  predicate StartsWithR(n: string) {
    |n| > |Prefix| && n[|Prefix|] == 'r'
  }

  lemma OutputName(verbatim: bool, o: Output)
    ensures StartsWithR(Full(PathOf(verbatim, o)))
  {
    assert PathOf(verbatim, o)[0] == 'r';
  }

  lemma IntegrityName(n: string)
    requires n in Integrity
    ensures !StartsWithR(n)
  {
    assert ManifestName[|Prefix|] == 'p' && ChecksumName[|Prefix|] == 'c';
  }

  lemma ResourceName(p: string)
    requires p in ResourcePaths
    ensures p != "" && p[0] != 'r' && |p| != 21 && |p| != 16
  {}

  lemma OtherName(p: string)
    requires p in OtherPaths
    ensures |p| > 1 && p[0] != 'r' && p[1] != 'a' && |p| != 16
  {}

  lemma GeneratedName(p: string)
    requires p in ResourcePaths || p in OtherPaths
    ensures !StartsWithR(Full(p)) && Full(p) !in Integrity
  {
    if p in ResourcePaths { ResourceName(p); } else { OtherName(p); }
    assert |ManifestName| == |Prefix| + 21 && ManifestName[|Prefix| + 1] == 'a' && |ChecksumName| == |Prefix| + 16;
  }

  /** The paths of outputs start with another letter than all generated ones. */
  lemma OutputsApart(verbatim: bool, outputs: seq<Output>, generated: Files)
    requires GeneratedFits(generated)
    ensures OutputFiles(verbatim, outputs).Keys !! Named(generated).Keys
    ensures Integrity !! OutputFiles(verbatim, outputs).Keys && Integrity !! Named(generated).Keys
  {
    OutputFilesAre(verbatim, outputs);
    forall n | n in OutputFiles(verbatim, outputs) ensures StartsWithR(n) {
      var o :| o in outputs && n == Full(PathOf(verbatim, o));
      OutputName(verbatim, o);
    }
    forall n | n in Named(generated) ensures !StartsWithR(n) && n !in Integrity {
      GeneratedName(Relative(n));
    }
    forall n | n in Integrity ensures !StartsWithR(n) {
      IntegrityName(n);
    }
  }

  // ---------------------------------------------------------------- the agreement

  /** The members of a package, by kind. */
  lemma PackageMembers(env: Env, verbatim: bool, outputs: seq<Output>, generated: Files)
    requires GeneratedFits(generated)
    ensures var body := Body(verbatim, outputs, generated); var files := WithManifest(env, verbatim, outputs, generated);
            && body.Keys !! Integrity
            && files.Keys == body.Keys + {ManifestName}
            && (forall n :: n in body ==> files[n] == body[n])
            && (forall n :: n in files ==> n == Full(Relative(n)))
  {
    var body := Body(verbatim, outputs, generated);
    OutputsApart(verbatim, outputs, generated);
    OutputFilesAre(verbatim, outputs);
    IntegrityApart();
    forall n | n in OutputFiles(verbatim, outputs) ensures n == Full(Relative(n)) {
      var o :| o in outputs && n == Full(PathOf(verbatim, o));
      RelativeOfFull(PathOf(verbatim, o));
    }
  }

  lemma IntegrityApart()
    ensures ManifestName != ChecksumName
    ensures Relative(ManifestName) == "package-manifest.yaml" && Full("package-manifest.yaml") == ManifestName
  {
    RelativeOfFull("package-manifest.yaml");
    assert |ManifestName| != |ChecksumName|;
  }

  lemma RelativeOfFull(p: string)
    ensures Relative(Full(p)) == p && Full(Relative(Full(p))) == Full(p)
  {}

  lemma ChecksumsRead(env: Env, files: Files, names: seq<string>)
    requires EnvFits(env) && names == AllNames(files)
    requires forall n :: n in files ==> n == Full(Relative(n)) && Unbroken(Relative(n))
    ensures Expected(SplitLines(Checksums(env, files, names))) == Some(Digests(env, files, names))
    ensures Digests(env, files, names).Keys == files.Keys
  {
    ChecksumLinesAre(env, files, names);
    ExpectedFor(env, files, names);
  }

  lemma WithOneMore(files: Files, name: string, text: string)
    requires name !in files
    ensures var all := files[name := text]; all.Keys - {name} == files.Keys && forall n :: n in files ==> n in all && all[n] == files[n]
  {}

  lemma UnbrokenNamesFit(env: Env, files: Files, text: string)
    requires EnvFits(env) && ChecksumName !in files && text == Checksums(env, files, AllNames(files))
    requires forall n :: n in files ==> n == Full(Relative(n)) && Unbroken(Relative(n))
    ensures ChecksumsFit(env, files[ChecksumName := text])
  {
    ChecksumsRead(env, files, AllNames(files));
    WithOneMore(files, ChecksumName, text);
  }

  lemma FittingNamesUnbroken(env: Env, files: Files)
    requires ChecksumsFit(env, files)
    ensures forall n :: n in files && n != ChecksumName ==> Unbroken(Relative(n))
  {
    var lines := SplitLines(files[ChecksumName]);
    SplitLinesUnbroken(files[ChecksumName]);
    ExpectedUnbroken(lines);
    forall n | n in files && n != ChecksumName ensures Unbroken(Relative(n)) {
      assert n in Expected(lines).value.Keys;
    }
  }

  /** The checksum file fits exactly when no member name contains a line break. */
  lemma ChecksumsAgree(env: Env, files: Files)
    requires EnvFits(env) && ChecksumName !in files && forall n :: n in files ==> n == Full(Relative(n))
    ensures ChecksumsFit(env, files[ChecksumName := Checksums(env, files, AllNames(files))])
            <==> forall n :: n in files ==> Unbroken(Relative(n))
  {
    var text := Checksums(env, files, AllNames(files));
    if forall n :: n in files ==> Unbroken(Relative(n)) {
      UnbrokenNamesFit(env, files, text);
    }
    if ChecksumsFit(env, files[ChecksumName := text]) {
      FittingNamesUnbroken(env, files[ChecksumName := text]);
    }
  }

  /** The content members of the package are those the producer scanned. */
  lemma SameContent(env: Env, verbatim: bool, outputs: seq<Output>, generated: Files)
    requires GeneratedFits(generated)
    ensures var body, files := Body(verbatim, outputs, generated), Package(env, verbatim, outputs, generated);
            Content(files) == Content(body) && forall n :: n in Content(body) ==> n in body && n in files && files[n] == body[n]
  {
    PackageMembers(env, verbatim, outputs, generated);
    var body, files := Body(verbatim, outputs, generated), Package(env, verbatim, outputs, generated);
    assert files.Keys - Integrity == body.Keys - Integrity;
  }

  /** The reader's scan of a written package is the one in its manifest, for every set of outputs. */
  lemma ScanAgrees(env: Env, verbatim: bool, outputs: seq<Output>, generated: Files)
    requires GeneratedFits(generated) && Written(env, verbatim, outputs, generated)
    ensures ScanVerified(env, Package(env, verbatim, outputs, generated), ManifestOf(env, verbatim, outputs, generated))
  {
    var body, files := Body(verbatim, outputs, generated), Package(env, verbatim, outputs, generated);
    var entries, m := EntriesOf(env, verbatim, outputs), ManifestOf(env, verbatim, outputs, generated);
    SameContent(env, verbatim, outputs, generated);
    ScanSame(env, body, files, entries, m.entries, Content(body));
    AllowedSame(ScanFiles(env, body, entries), entries, m.entries);
  }

  lemma CountsKeepPaths(a: seq<Entry>, b: seq<Entry>)
    requires SameButCounts(a, b)
    ensures DistinctPaths(a) <==> DistinctPaths(b)
  {
    forall i | 0 <= i < |a| ensures a[i].path == b[i].path {
      assert a[i].(findings := b[i].findings) == b[i];
    }
  }

  lemma EntriesIntact(env: Env, verbatim: bool, outputs: seq<Output>, generated: Files, e: Entry)
    requires GeneratedFits(generated) && DistinctPaths(EntriesOf(env, verbatim, outputs))
    requires e in ManifestOf(env, verbatim, outputs, generated).entries
    ensures EntryIntact(env, Package(env, verbatim, outputs, generated), e)
  {
    var entries, m := EntriesOf(env, verbatim, outputs), ManifestOf(env, verbatim, outputs, generated);
    var i :| 0 <= i < |m.entries| && m.entries[i] == e;
    assert entries[i].(findings := e.findings) == e;
    OutputStored(env, verbatim, outputs, i);
    OutputsApart(verbatim, outputs, generated);
    PackageMembers(env, verbatim, outputs, generated);
    assert Full(e.path) in Body(verbatim, outputs, generated);
  }

  lemma ResourceIs(env: Env, files: Files, r: Resource)
    requires forall p :: p in ResourcePaths ==> Full(p) in files
    requires r in ResourcesOf(env, files)
    ensures r.path in ResourcePaths && Full(r.path) in files && r.hash == env.digest(files[Full(r.path)])
  {
    var i :| 0 <= i < |ResourcesOf(env, files)| && ResourcesOf(env, files)[i] == r;
    assert ResourcePaths[i] in ResourcePaths;
  }

  lemma ResourceAgrees(env: Env, verbatim: bool, outputs: seq<Output>, generated: Files, r: Resource)
    requires GeneratedFits(generated) && r in ManifestOf(env, verbatim, outputs, generated).resources
    ensures ResourceIntact(env, Package(env, verbatim, outputs, generated), r) && !StartsWithR(Full(r.path))
  {
    var body := Body(verbatim, outputs, generated);
    ResourceIs(env, body, r);
    GeneratedName(r.path);
    PackageMembers(env, verbatim, outputs, generated);
  }

  lemma EntryPath(env: Env, verbatim: bool, outputs: seq<Output>, entries: seq<Entry>, e: Entry)
    requires SameButCounts(EntriesOf(env, verbatim, outputs), entries) && e in entries
    ensures StartsWithR(Full(e.path))
  {
    var i :| 0 <= i < |entries| && entries[i] == e;
    assert EntriesOf(env, verbatim, outputs)[i].(findings := e.findings) == e;
    OutputName(verbatim, outputs[i]);
  }

  lemma ResourcesApart(env: Env, files: Files)
    requires forall p :: p in ResourcePaths ==> Full(p) in files
    ensures var rs := ResourcesOf(env, files); forall i, j :: 0 <= i < j < |rs| ==> rs[i].path != rs[j].path
  {
    ResourcePathsDiffer();
  }

  lemma ResourcesAgree(env: Env, verbatim: bool, outputs: seq<Output>, generated: Files)
    requires GeneratedFits(generated)
    ensures var m := ManifestOf(env, verbatim, outputs, generated); ResourcesFit(m.entries, m.resources)
  {
    var m := ManifestOf(env, verbatim, outputs, generated);
    forall r, e | r in m.resources && e in m.entries ensures r.path != e.path {
      ResourceAgrees(env, verbatim, outputs, generated, r);
      EntryPath(env, verbatim, outputs, m.entries, e);
    }
    ResourcesApart(env, Body(verbatim, outputs, generated));
  }

  lemma ResourcePathsDiffer()
    ensures forall i, j :: 0 <= i < j < |ResourcePaths| ==> ResourcePaths[i] != ResourcePaths[j]
  {}

  lemma MembersAgree(env: Env, verbatim: bool, outputs: seq<Output>, generated: Files)
    requires EnvFits(env) && GeneratedFits(generated)
    ensures var m, files := ManifestOf(env, verbatim, outputs, generated), Package(env, verbatim, outputs, generated);
            && ManifestName in files && env.decode(files[ManifestName]) == Some(m)
            && (ChecksumsFit(env, files) <==> forall n :: n in files ==> Unbroken(Relative(n)))
  {
    PackageMembers(env, verbatim, outputs, generated);
    IntegrityApart();
    ChecksumNameUnbroken();
    ChecksumsAgree(env, WithManifest(env, verbatim, outputs, generated));
  }

  lemma EntriesAgree(env: Env, verbatim: bool, outputs: seq<Output>, generated: Files)
    requires GeneratedFits(generated)
    ensures var m, files := ManifestOf(env, verbatim, outputs, generated), Package(env, verbatim, outputs, generated);
            DistinctPaths(m.entries) && (forall e :: e in m.entries ==> EntryIntact(env, files, e)) <==>
            DistinctPaths(EntriesOf(env, verbatim, outputs))
  {
    var m, files := ManifestOf(env, verbatim, outputs, generated), Package(env, verbatim, outputs, generated);
    CountsKeepPaths(EntriesOf(env, verbatim, outputs), m.entries);
    if DistinctPaths(EntriesOf(env, verbatim, outputs)) {
      forall e | e in m.entries ensures EntryIntact(env, files, e) {
        EntriesIntact(env, verbatim, outputs, generated, e);
      }
    }
  }

  /** Every written package is accepted by the reader and its scan is verified - exactly when its
      outputs have different paths and no member name contains a line break. */
  lemma PackageAccepted(env: Env, verbatim: bool, outputs: seq<Output>, generated: Files)
    requires EnvFits(env) && GeneratedFits(generated) && Written(env, verbatim, outputs, generated)
    ensures var m, files := ManifestOf(env, verbatim, outputs, generated), Package(env, verbatim, outputs, generated);
            (Accepted(env, files, m) && ScanVerified(env, files, m)) <==>
            (DistinctPaths(EntriesOf(env, verbatim, outputs)) && forall n :: n in files ==> Unbroken(Relative(n)))
  {
    var m, files := ManifestOf(env, verbatim, outputs, generated), Package(env, verbatim, outputs, generated);
    MembersAgree(env, verbatim, outputs, generated);
    EntriesAgree(env, verbatim, outputs, generated);
    ScanAgrees(env, verbatim, outputs, generated);
    ResourcesAgree(env, verbatim, outputs, generated);
    forall r | r in m.resources ensures ResourceIntact(env, files, r) {
      ResourceAgrees(env, verbatim, outputs, generated, r);
    }
  }

  lemma ChecksumNameUnbroken()
    ensures Unbroken(Relative(ChecksumName))
  {
    RelativeOfFull("checksums.sha256");
  }

  // -------------------------------------------------------------- when paths differ

  predicate NoSlash(s: string) {
    '/' !in s
  }

  lemma {:induction false} SlashSplits(a: string, b: string, c: string, d: string)
    requires NoSlash(a) && NoSlash(c) && a + "/" + b == c + "/" + d
    ensures a == c && b == d
  {
    var x, y := a + "/" + b, c + "/" + d;
    if a == "" || c == "" {
      assert x[0] == y[0];
      assert a == c;
      assert x[1..] == b && y[1..] == d;
    } else {
      assert x[0] == a[0] && y[0] == c[0];
      assert x[1..] == a[1..] + "/" + b && y[1..] == c[1..] + "/" + d;
      SlashSplits(a[1..], b, c[1..], d);
      assert a == [a[0]] + a[1..] && c == [c[0]] + c[1..];
    }
  }

  function Category(verbatim: bool, o: Output): string {
    if IsVerbatim(verbatim, o) then "verbatim" else "sanitized"
  }

  lemma PathNests(verbatim: bool, o: Output)
    ensures PathOf(verbatim, o) == "raw" + "/" + (Category(verbatim, o) + "/" + (o.host + "/" + (o.command + ".txt")))
    ensures NoSlash("raw") && NoSlash(Category(verbatim, o))
  {
    assert "raw/" == "raw" + "/";
  }

  /** Host names without a slash keep outputs of different hosts or commands apart. */
  lemma PathsDiffer(verbatim: bool, a: Output, b: Output)
    requires NoSlash(a.host) && NoSlash(b.host) && PathOf(verbatim, a) == PathOf(verbatim, b)
    ensures a.host == b.host && a.command == b.command
  {
    var x, y := a.command + ".txt", b.command + ".txt";
    PathNests(verbatim, a);
    PathNests(verbatim, b);
    SlashSplits("raw", Category(verbatim, a) + "/" + (a.host + "/" + x), "raw", Category(verbatim, b) + "/" + (b.host + "/" + y));
    SlashSplits(Category(verbatim, a), a.host + "/" + x, Category(verbatim, b), b.host + "/" + y);
    SlashSplits(a.host, x, b.host, y);
    assert a.command == x[..|a.command|] && b.command == y[..|b.command|];
  }

  /** One output per host and command, and hosts without slash: the paths are distinct. */
  lemma OutputsHaveDistinctPaths(env: Env, verbatim: bool, outputs: seq<Output>)
    requires forall o :: o in outputs ==> NoSlash(o.host)
    requires forall i, j :: 0 <= i < j < |outputs| ==> outputs[i].host != outputs[j].host || outputs[i].command != outputs[j].command
    ensures DistinctPaths(EntriesOf(env, verbatim, outputs))
  {
    forall i, j | 0 <= i < j < |outputs| && PathOf(verbatim, outputs[i]) == PathOf(verbatim, outputs[j]) ensures false {
      PathsDiffer(verbatim, outputs[i], outputs[j]);
    }
  }

  // ------------------------------------------------------------------- tampering

  ghost predicate Injective(f: string -> string) {
    forall a, b :: f(a) == f(b) ==> a == b
  }

  /** Two accepted packages with the same checksum file have the same members. */
  lemma ChecksumsPinMembers(env: Env, a: Files, m: Manifest, b: Files, n: Manifest)
    requires Injective(env.digest) && Accepted(env, a, m) && Accepted(env, b, n)
    requires a[ChecksumName] == b[ChecksumName]
    ensures a == b && m == n
  {
    var expected := Expected(SplitLines(a[ChecksumName])).value;
    assert a.Keys == expected.Keys + {ChecksumName} && b.Keys == expected.Keys + {ChecksumName};
    forall k | k in a ensures a[k] == b[k] {
      if k != ChecksumName {
        assert k in expected;
        assert env.digest(a[k]) == expected[k] && env.digest(b[k]) == expected[k];
      }
    }
  }

  // -------------------------------------------------- producer and reader, spelled out

  lemma {:induction false} EntryAtIs(entries: seq<Entry>, name: string)
    ensures EntryAt(entries, name).Some? <==> exists k :: OwnEntry(entries, name, k)
    ensures forall k :: OwnEntry(entries, name, k) ==> EntryAt(entries, name) == Some(entries[k])
  {
    if entries != [] {
      var n := |entries| - 1;
      EntryAtIs(entries[..n], name);
      if Full(entries[n].path) == name {
        assert OwnEntry(entries, name, n);
      } else {
        assert forall k :: OwnEntry(entries, name, k) <==> OwnEntry(entries[..n], name, k);
      }
    }
  }

  lemma ScanMemberIs(env: Env, files: Files, entries: seq<Entry>, name: string, found: seq<Finding>)
    requires name in files
    ensures ScanOfMember(env, files, entries, name, found) <==> found == ScanMember(env, files, entries, name)
  {
    EntryAtIs(entries, name);
    if k :| OwnEntry(entries, name, k) {
      assert EntryAt(entries, name) == Some(entries[k]);
    }
  }

  lemma {:induction false} ScanNamesAre(env: Env, files: Files, entries: seq<Entry>, names: seq<string>, parts: seq<seq<Finding>>)
    requires |parts| == |names|
    requires forall i :: 0 <= i < |names| ==> names[i] in files && parts[i] == ScanMember(env, files, entries, names[i])
    ensures Joined(parts) == ScanNames(env, files, entries, names)
  {
    if names != [] {
      var n := |names| - 1;
      ScanNamesAre(env, files, entries, names[..n], parts[..n]);
    }
  }

  lemma ScanOfNames(env: Env, files: Files, entries: seq<Entry>, names: seq<string>, parts: seq<seq<Finding>>)
    requires |parts| == |names|
    requires forall i :: 0 <= i < |names| ==> names[i] in files && ScanOfMember(env, files, entries, names[i], parts[i])
    ensures Joined(parts) == ScanNames(env, files, entries, names)
  {
    forall i | 0 <= i < |names| ensures parts[i] == ScanMember(env, files, entries, names[i]) {
      ScanMemberIs(env, files, entries, names[i], parts[i]);
    }
    ScanNamesAre(env, files, entries, names, parts);
  }

  lemma OneScan(env: Env, files: Files, entries: seq<Entry>, findings: seq<Finding>)
    requires IsScan(env, files, entries, findings)
    ensures findings == ScanFiles(env, files, entries)
  {
    StrOrder();
    var names: seq<string>, parts: seq<seq<Finding>> :|
      && IsSorted(StrLe, files.Keys - {ManifestName, ChecksumName}, names)
      && |parts| == |names| && findings == Joined(parts)
      && forall i :: 0 <= i < |names| ==> names[i] in files && ScanOfMember(env, files, entries, names[i], parts[i]);
    SortedUnique(StrLe, files.Keys - Integrity, names, Content(files));
    ScanOfNames(env, files, entries, names, parts);
  }

  lemma ScanIsOne(env: Env, files: Files, entries: seq<Entry>)
    ensures IsScan(env, files, entries, ScanFiles(env, files, entries))
  {
    StrOrder();
    var names := Content(files);
    var parts := seq(|names|, i requires 0 <= i < |names| => assert names[i] in names; ScanMember(env, files, entries, names[i]));
    forall i | 0 <= i < |names| ensures names[i] in files && ScanOfMember(env, files, entries, names[i], parts[i]) {
      assert names[i] in names;
      ScanMemberIs(env, files, entries, names[i], parts[i]);
    }
    ScanOfNames(env, files, entries, names, parts);
    assert IsSorted(StrLe, files.Keys - {ManifestName, ChecksumName}, names);
  }

  ghost function Those(findings: seq<Finding>, has: Finding -> bool): set<int> {
    set i | 0 <= i < |findings| && has(findings[i])
  }

  lemma NextOfThose(findings: seq<Finding>, has: Finding -> bool)
    requires findings != []
    ensures var n := |findings| - 1;
      |Those(findings, has)| == |Those(findings[..n], has)| + if has(findings[n]) then 1 else 0
  {
    var n := |findings| - 1;
    assert Those(findings, has) == Those(findings[..n], has) + if has(findings[n]) then {n} else {};
  }

  lemma {:induction false} CountIs(findings: seq<Finding>, high: bool, has: Finding -> bool)
    requires forall f :: has(f) <==> f.high == high
    ensures CountOf(findings, high) == |Those(findings, has)|
  {
    if findings == [] {
      assert Those(findings, has) == {};
    } else {
      CountIs(findings[..|findings| - 1], high, has);
      NextOfThose(findings, has);
    }
  }

  lemma {:induction false} FindingsAtIs(findings: seq<Finding>, artifact: string, has: Finding -> bool)
    requires forall f :: has(f) <==> f.artifact == artifact
    ensures FindingsAt(findings, artifact) == |Those(findings, has)|
  {
    if findings == [] {
      assert Those(findings, has) == {};
    } else {
      FindingsAtIs(findings[..|findings| - 1], artifact, has);
      NextOfThose(findings, has);
    }
  }

  lemma {:induction false} CountMeets(findings: seq<Finding>, high: bool)
    ensures CountOf(findings, high) > 0 <==> exists f :: f in findings && f.high == high
  {
    if findings != [] {
      var n := |findings| - 1;
      CountMeets(findings[..n], high);
      assert findings == findings[..n] + [findings[n]];
    }
  }

  lemma ScanResultIs(env: Env, findings: seq<Finding>, scanned: nat, acknowledged: bool, scan: Scan)
    ensures IsScanResult(env, findings, scanned, acknowledged, scan) <==> scan == ScanResult(env, findings, scanned, acknowledged)
  {
    var high, low := (f: Finding) => f.high, (f: Finding) => !f.high;
    CountIs(findings, true, high);
    CountIs(findings, false, low);
    CountMeets(findings, true);
    CountMeets(findings, false);
    assert (set i | 0 <= i < |findings| && findings[i].high) == Those(findings, high);
    assert (set i | 0 <= i < |findings| && !findings[i].high) == Those(findings, low);
    assert |findings| > 0 ==> findings[0] in findings;
  }

  lemma AllowedIs(findings: seq<Finding>, entries: seq<Entry>)
    ensures NothingLeaks(findings, entries) <==> Allowed(findings, entries)
  {
    if Allowed(findings, entries) {
      forall f | f in findings && (forall e :: e in entries && e.verbatim ==> e.path != f.path) ensures !f.high {}
    }
  }

  lemma ContentSize(files: Files)
    ensures |Content(files)| == |files.Keys - {ManifestName, ChecksumName}|
  {
    StrOrder();
    SortedSize(files.Keys - Integrity, Content(files));
  }

  lemma {:induction false} SortedSize(s: set<string>, names: seq<string>)
    requires IsSorted(StrLe, s, names)
    ensures |names| == |s|
    decreases |names|
  {
    if names == [] {
      assert s == {};
    } else {
      assert names[0] in names;
      TailSorted(StrLe, s, names);
      SortedSize(s - {names[0]}, names[1..]);
    }
  }

  /** What the reader accepts is a package that declares its members and their scan. */
  lemma DeclaredIs(env: Env, files: Files, m: Manifest)
    ensures DeclaresScan(env, files, m) <==> ScanVerified(env, files, m)
  {
    var findings := ScanFiles(env, files, m.entries);
    ScanIsOne(env, files, m.entries);
    forall other | IsScan(env, files, m.entries, other) ensures other == findings {
      OneScan(env, files, m.entries, other);
    }
    AllowedIs(findings, m.entries);
    ContentSize(files);
    ScanResultIs(env, findings, |Content(files)|, m.verbatim, m.scan);
  }

  /** `_read_archive` and `_verify_declared_secret_scan` let the package pass. */
  ghost predicate Genuine(env: Env, files: Files, m: Manifest) {
    && ManifestName in files && env.decode(files[ManifestName]) == Some(m) && env.schema(m)
    && ChecksumsFit(env, files) && Declares(env, files, m) && DeclaresScan(env, files, m)
  }

  lemma IntactIs(env: Env, files: Files, m: Manifest)
    ensures Declares(env, files, m) <==>
      && DistinctPaths(m.entries) && (forall e :: e in m.entries ==> EntryIntact(env, files, e))
      && ResourcesFit(m.entries, m.resources) && (forall r :: r in m.resources ==> ResourceIntact(env, files, r))
  {
    assert forall e: Entry :: EntryIntact(env, files, e) <==> HasDigest(env, files, e.path, e.exportHash);
    assert forall r: Resource :: ResourceIntact(env, files, r) <==> HasDigest(env, files, r.path, r.hash);
  }

  lemma GenuineIs(env: Env, files: Files, m: Manifest)
    ensures Genuine(env, files, m) <==> Accepted(env, files, m) && ScanVerified(env, files, m)
  {
    DeclaredIs(env, files, m);
    IntactIs(env, files, m);
  }

  lemma PathIs(verbatim: bool, o: Output)
    ensures IsPath(verbatim, o, PathOf(verbatim, o))
  {
    assert "raw/" + "verbatim" + "/" == "raw/verbatim/" && "raw/" + "sanitized" + "/" == "raw/sanitized/";
  }

  lemma EntryIs(env: Env, verbatim: bool, outputs: seq<Output>, findings: seq<Finding>, i: nat)
    requires i < |outputs|
    ensures IsEntry(env, verbatim, outputs[i], findings, Counted(EntriesOf(env, verbatim, outputs), findings)[i])
  {
    var artifact := outputs[i].host + ":" + outputs[i].command;
    var has := (f: Finding) => f.artifact == artifact;
    PathIs(verbatim, outputs[i]);
    FindingsAtIs(findings, artifact, has);
    assert (set k | 0 <= k < |findings| && findings[k].artifact == artifact) == Those(findings, has);
  }

  /** The last output with a name is the one that is stored. */
  lemma {:induction false} LastOutputStored(verbatim: bool, outputs: seq<Output>, name: string, k: nat)
    requires k < |outputs| && name == Full(PathOf(verbatim, outputs[k]))
    requires forall j :: k < j < |outputs| ==> name != Full(PathOf(verbatim, outputs[j]))
    ensures name in OutputFiles(verbatim, outputs) && OutputFiles(verbatim, outputs)[name] == outputs[k].text
  {
    if k < |outputs| - 1 {
      LastOutputStored(verbatim, outputs[..|outputs| - 1], name, k);
    }
  }

  lemma {:induction false} StoredIsLast(verbatim: bool, outputs: seq<Output>, name: string) returns (k: nat)
    requires name in OutputFiles(verbatim, outputs)
    ensures k < |outputs| && name == Full(PathOf(verbatim, outputs[k]))
    ensures forall j :: k < j < |outputs| ==> name != Full(PathOf(verbatim, outputs[j]))
  {
    var n := |outputs| - 1;
    if name == Full(PathOf(verbatim, outputs[n])) {
      k := n;
    } else {
      k := StoredIsLast(verbatim, outputs[..n], name);
    }
  }

  lemma OutputMember(env: Env, verbatim: bool, outputs: seq<Output>, generated: Files, name: string, text: string)
    requires GeneratedFits(generated)
    ensures var m := ManifestOf(env, verbatim, outputs, generated);
      (exists k :: IsLastOutput(m, outputs, name, k) && text == outputs[k].text) <==>
      name in OutputFiles(verbatim, outputs) && OutputFiles(verbatim, outputs)[name] == text
  {
    var m := ManifestOf(env, verbatim, outputs, generated);
    assert forall i :: 0 <= i < |outputs| ==> Prefix + m.entries[i].path == Full(PathOf(verbatim, outputs[i]));
    if k :| IsLastOutput(m, outputs, name, k) && text == outputs[k].text {
      LastOutputStored(verbatim, outputs, name, k);
    }
    if name in OutputFiles(verbatim, outputs) && OutputFiles(verbatim, outputs)[name] == text {
      var k := StoredIsLast(verbatim, outputs, name);
      LastOutputStored(verbatim, outputs, name, k);
      assert IsLastOutput(m, outputs, name, k);
    }
  }

  lemma GeneratedMember(generated: Files, name: string, text: string)
    ensures (exists p :: p in generated && name == Prefix + p && text == generated[p]) <==>
      name in Named(generated) && Named(generated)[name] == text
  {
    if name in Named(generated) && Named(generated)[name] == text {
      assert name == Prefix + Relative(name) && Relative(name) in generated;
    }
    if p :| p in generated && name == Prefix + p && text == generated[p] {
      assert Full(p) == name;
    }
  }

  lemma MemberIs(env: Env, verbatim: bool, outputs: seq<Output>, generated: Files, name: string, text: string)
    requires GeneratedFits(generated) && name != ChecksumName
    ensures var files := Package(env, verbatim, outputs, generated);
      name in files && files[name] == text <==> IsMember(env, ManifestOf(env, verbatim, outputs, generated), outputs, generated, name, text)
  {
    OutputsApart(verbatim, outputs, generated);
    OutputMember(env, verbatim, outputs, generated, name, text);
    GeneratedMember(generated, name, text);
    IntegrityApart();
  }

  lemma ResourceHashes(env: Env, verbatim: bool, outputs: seq<Output>, generated: Files, i: nat)
    requires GeneratedFits(generated) && i < |ResourcePaths|
    ensures var m, files := ManifestOf(env, verbatim, outputs, generated), Package(env, verbatim, outputs, generated);
      |m.resources| == |ResourcePaths| && m.resources[i].path == ResourcePaths[i]
      && HasDigest(env, files, m.resources[i].path, m.resources[i].hash)
  {
    assert ResourcePaths[i] in ResourcePaths;
    GeneratedName(ResourcePaths[i]);
    PackageMembers(env, verbatim, outputs, generated);
    assert Full(ResourcePaths[i]) in Named(generated);
  }

  /** The package that the producer assembles is the one its outputs and documents call for. */
  lemma PackageIs(env: Env, verbatim: bool, outputs: seq<Output>, generated: Files)
    requires GeneratedFits(generated)
    ensures var (files, m) := (Package(env, verbatim, outputs, generated), ManifestOf(env, verbatim, outputs, generated));
      IsPackage(env, verbatim, outputs, generated, files, ScanFiles(env, files, m.entries), m)
    ensures var (files, m) := (Package(env, verbatim, outputs, generated), ManifestOf(env, verbatim, outputs, generated));
      Written(env, verbatim, outputs, generated) <==>
        NothingLeaks(ScanFiles(env, files, m.entries), m.entries) && env.schema(m) && forall n :: n in files ==> env.safe(n)
  {
    var files, m := Package(env, verbatim, outputs, generated), ManifestOf(env, verbatim, outputs, generated);
    var body, entries := Body(verbatim, outputs, generated), EntriesOf(env, verbatim, outputs);
    var findings := ScanFiles(env, files, m.entries);
    SameContent(env, verbatim, outputs, generated);
    ScanSame(env, body, files, entries, m.entries, Content(body));
    ScanIsOne(env, files, m.entries);
    ContentSize(files);
    ScanResultIs(env, findings, |Content(files)|, verbatim, m.scan);
    forall i | 0 <= i < |outputs| ensures IsEntry(env, verbatim, outputs[i], findings, m.entries[i]) {
      EntryIs(env, verbatim, outputs, findings, i);
    }
    forall i | 0 <= i < |ResourcePaths|
      ensures m.resources[i].path == ResourcePaths[i] && HasDigest(env, files, m.resources[i].path, m.resources[i].hash)
    {
      ResourceHashes(env, verbatim, outputs, generated, i);
    }
    forall name, text | name != ChecksumName
      ensures name in files && files[name] == text <==> IsMember(env, m, outputs, generated, name, text)
    {
      MemberIs(env, verbatim, outputs, generated, name, text);
    }
    AllowedIs(findings, m.entries);
    AllowedEither(findings, entries, m.entries);
  }

  lemma AllowedEither(findings: seq<Finding>, a: seq<Entry>, b: seq<Entry>)
    requires SameButCounts(a, b)
    ensures Allowed(findings, a) <==> Allowed(findings, b)
  {
    assert SameButCounts(b, a) by {
      forall i | 0 <= i < |a| ensures b[i].(findings := a[i].findings) == a[i] {
        assert a[i].(findings := b[i].findings) == b[i];
      }
    }
    if Allowed(findings, a) { AllowedSame(findings, a, b); }
    if Allowed(findings, b) { AllowedSame(findings, b, a); }
  }

  // ------------------------------------------------------------------ the code

  datatype Member = Member(name: string, isFile: bool, content: string)

  /** The state of the scanning loop after some of the names. */
  ghost predicate Scanned(env: Env, files: Files, entries: seq<Entry>, done: seq<string>, findings: seq<Finding>, scanned: nat) {
    && (forall n :: n in WithoutIntegrity(done) ==> n in files)
    && findings == ScanNames(env, files, entries, WithoutIntegrity(done))
    && scanned == |WithoutIntegrity(done)|
  }

  lemma ScanStarts(env: Env, files: Files, entries: seq<Entry>)
    ensures Scanned(env, files, entries, [], [], 0)
  {}

  lemma ScanNext(env: Env, files: Files, entries: seq<Entry>, done: seq<string>, findings: seq<Finding>, scanned: nat, name: string)
    requires Scanned(env, files, entries, done, findings, scanned) && name in files
    ensures name in Integrity ==> Scanned(env, files, entries, done + [name], findings, scanned)
    ensures name !in Integrity ==>
      Scanned(env, files, entries, done + [name], findings + ScanMember(env, files, entries, name), scanned + 1)
  {
    var kept := WithoutIntegrity(done);
    assert (done + [name])[..|done|] == done;
    assert (kept + [name])[..|kept|] == kept;
    assert kept + [] == kept;
  }

  lemma ScanEnds(env: Env, files: Files, entries: seq<Entry>, findings: seq<Finding>, scanned: nat)
    requires Scanned(env, files, entries, AllNames(files), findings, scanned)
    ensures findings == ScanFiles(env, files, entries) && scanned == |Content(files)|
  {
    ContentIsFiltered(files);
  }

  /** `_scan_package_members` */
  method ScanPackageMembers(env: Env, files: Files, entries: seq<Entry>) returns (findings: seq<Finding>, scanned: nat)
    ensures findings == ScanFiles(env, files, entries) && scanned == |Content(files)|
  {
    var names := AllNames(files);
    findings, scanned := [], 0;
    ghost var done: seq<string> := [];
    ScanStarts(env, files, entries);
    var i := 0;
    while i < |names|
      invariant 0 <= i <= |names| && done == names[..i]
      invariant Scanned(env, files, entries, done, findings, scanned)
    {
      var name := names[i];
      assert name in names;
      ScanNext(env, files, entries, done, findings, scanned, name);
      if name !in Integrity {
        findings := findings + ScanMember(env, files, entries, name);
        scanned := scanned + 1;
      }
      done := done + [name];
      i := i + 1;
    }
    assert done == names;
    ScanEnds(env, files, entries, findings, scanned);
  }

  function WithoutIntegrity(names: seq<string>): seq<string> {
    if names == [] then []
    else WithoutIntegrity(names[..|names| - 1]) + if names[|names| - 1] in Integrity then [] else [names[|names| - 1]]
  }

  lemma {:induction false} FilteredIsSorted(names: seq<string>)
    requires Ascending(StrLe, names)
    ensures Ascending(StrLe, WithoutIntegrity(names))
    ensures forall n :: n in WithoutIntegrity(names) <==> n in names && n !in Integrity
  {
    if names != [] {
      var k := |names| - 1;
      FilteredIsSorted(names[..k]);
      assert names == names[..k] + [names[k]];
      var before := WithoutIntegrity(names[..k]);
      forall i | 0 <= i < |before| ensures StrLe(before[i], names[k]) && before[i] != names[k] {
        assert before[i] in before && before[i] in names[..k];
        var j :| 0 <= j < k && names[j] == before[i];
      }
    }
  }

  lemma ContentIsFiltered(files: Files)
    ensures WithoutIntegrity(AllNames(files)) == Content(files)
  {
    StrOrder();
    FilteredIsSorted(AllNames(files));
    assert IsSorted(StrLe, files.Keys - Integrity, WithoutIntegrity(AllNames(files)));
    SortedUnique(StrLe, files.Keys - Integrity, WithoutIntegrity(AllNames(files)), Content(files));
  }

  /** The members of an archive, if they are regular files with safe, different names. */
  ghost predicate Unpacks(env: Env, members: seq<Member>, files: Files) {
    && (forall i :: 0 <= i < |members| ==> members[i].isFile && env.safe(members[i].name))
    && (forall i, j :: 0 <= i < j < |members| ==> members[i].name != members[j].name)
    && (forall n :: n in files <==> exists i :: 0 <= i < |members| && members[i].name == n)
    && (forall i :: 0 <= i < |members| ==> members[i].name in files && files[members[i].name] == members[i].content)
  }

  lemma UnpackNext(env: Env, members: seq<Member>, i: nat, files: Files)
    requires i < |members| && Unpacks(env, members[..i], files)
    ensures var m := members[i];
            if m.isFile && env.safe(m.name) && m.name !in files
            then Unpacks(env, members[..i + 1], files[m.name := m.content])
            else forall other :: !Unpacks(env, members, other)
  {
    var m := members[i];
    assert members[..i + 1] == members[..i] + [m];
    if m.name in files {
      var j :| 0 <= j < i && members[..i][j].name == m.name;
      assert members[j].name == members[i].name;
    }
  }

  method Unpack(env: Env, members: seq<Member>) returns (r: Option<Files>)
    ensures r.Some? ==> Unpacks(env, members, r.value)
    ensures r.None? ==> forall files :: !Unpacks(env, members, files)
  {
    var files: Files := map[];
    for i := 0 to |members|
      invariant Unpacks(env, members[..i], files)
    {
      var member := members[i];
      UnpackNext(env, members, i, files);
      if !member.isFile || !env.safe(member.name) || member.name in files {
        return None;
      }
      files := files[member.name := member.content];
    }
    assert members[..|members|] == members;
    r := Some(files);
  }

  /** The checksum lines, read one by one. */
  method ReadChecksums(text: string) returns (expected: Option<Files>)
    ensures expected == Expected(SplitLines(text))
  {
    var lines := SplitLines(text);
    var m: Files := map[];
    for i := 0 to |lines|
      invariant Expected(lines[..i]) == Some(m)
    {
      assert lines[..i + 1][..i] == lines[..i];
      var fields := Partition(lines[i]);
      if fields.None? {
        NoneStays(lines, i);
        return None;
      }
      m := m[Full(fields.value.1) := fields.value.0];
    }
    assert lines[..|lines|] == lines;
    expected := Some(m);
  }

  lemma {:induction false} NoneStays(lines: seq<string>, i: nat)
    requires i < |lines| && Partition(lines[i]).None?
    ensures Expected(lines).None?
  {
    if i < |lines| - 1 {
      NoneStays(lines[..|lines| - 1], i);
    }
  }

  method CheckEntries(env: Env, files: Files, entries: seq<Entry>) returns (ok: bool, paths: set<string>)
    ensures ok <==> DistinctPaths(entries) && forall e :: e in entries ==> EntryIntact(env, files, e)
    ensures ok ==> paths == set e | e in entries :: e.path
  {
    paths := {};
    for i := 0 to |entries|
      invariant paths == set e | e in entries[..i] :: e.path
      invariant DistinctPaths(entries[..i]) && forall e :: e in entries[..i] ==> EntryIntact(env, files, e)
    {
      var e := entries[i];
      assert entries[..i + 1] == entries[..i] + [e] && e in entries;
      if e.path in paths {
        var d :| d in entries[..i] && d.path == e.path;
        var k :| 0 <= k < i && entries[..i][k] == d;
        assert entries[k].path == entries[i].path;
        return false, paths;
      }
      if !EntryIntact(env, files, e) {
        return false, paths;
      }
      paths := paths + {e.path};
    }
    assert entries[..|entries|] == entries;
    ok := true;
  }

  method CheckResources(env: Env, files: Files, declared: set<string>, resources: seq<Resource>) returns (ok: bool)
    ensures ok <==>
      && (forall i, j :: 0 <= i < j < |resources| ==> resources[i].path != resources[j].path)
      && (forall r :: r in resources ==> r.path !in declared && ResourceIntact(env, files, r))
  {
    var paths: set<string> := {};
    for k := 0 to |resources|
      invariant paths == set r | r in resources[..k] :: r.path
      invariant forall i, j :: 0 <= i < j < k ==> resources[i].path != resources[j].path
      invariant forall r :: r in resources[..k] ==> r.path !in declared && ResourceIntact(env, files, r)
    {
      var r := resources[k];
      assert resources[..k + 1] == resources[..k] + [r] && r in resources;
      if r.path in paths {
        var d :| d in resources[..k] && d.path == r.path;
        var i :| 0 <= i < k && resources[..k][i] == d;
        assert resources[i].path == resources[k].path;
        return false;
      }
      if r.path in declared || !ResourceIntact(env, files, r) {
        return false;
      }
      forall i | 0 <= i < k ensures resources[i].path != r.path {
        assert resources[..k][i] in resources[..k];
      }
      paths := paths + {r.path};
    }
    assert resources[..|resources|] == resources;
    ok := true;
  }

  /** `_read_archive` after the members are unpacked. */
  method ReadFiles(env: Env, files: Files) returns (m: Option<Manifest>)
    ensures m.Some? ==> Accepted(env, files, m.value)
    ensures m.None? ==> forall n :: !Accepted(env, files, n)
  {
    if ManifestName !in files || ChecksumName !in files {
      return None;
    }
    m := env.decode(files[ManifestName]);
    if m.None? || !env.schema(m.value) {
      return None;
    }
    var expected := ReadChecksums(files[ChecksumName]);
    if expected.None? || expected.value.Keys != files.Keys - {ChecksumName}
       || exists n :: n in expected.value && env.digest(files[n]) != expected.value[n] {
      return None;
    }
    var ok, paths := CheckEntries(env, files, m.value.entries);
    if ok {
      ok := CheckResources(env, files, paths, m.value.resources);
    }
    if !ok {
      return None;
    }
  }

  /** `_read_archive` and `_verify_declared_secret_scan`. */
  method VerifyPackage(env: Env, members: seq<Member>) returns (r: Option<(Files, Manifest)>)
    ensures r.Some? ==> Unpacks(env, members, r.value.0) && Genuine(env, r.value.0, r.value.1)
    ensures r.None? ==> forall files, m :: Unpacks(env, members, files) ==> !Genuine(env, files, m)
  {
    forall files, m ensures Genuine(env, files, m) <==> Accepted(env, files, m) && ScanVerified(env, files, m) {
      GenuineIs(env, files, m);
    }
    var files := Unpack(env, members);
    if files.None? {
      return None;
    }
    UnpackedOnce(env, members, files.value);
    var m := ReadFiles(env, files.value);
    if m.None? {
      return None;
    }
    var findings, scanned := ScanPackageMembers(env, files.value, m.value.entries);
    if !Allowed(findings, m.value.entries) || ScanResult(env, findings, scanned, m.value.verbatim) != m.value.scan {
      return None;
    }
    r := Some((files.value, m.value));
  }

  lemma UnpackedOnce(env: Env, members: seq<Member>, files: Files)
    requires Unpacks(env, members, files)
    ensures forall other :: Unpacks(env, members, other) ==> other == files
  {
    forall other | Unpacks(env, members, other) ensures other == files {
      forall n | n in files ensures n in other && other[n] == files[n] {
        var i :| 0 <= i < |members| && members[i].name == n;
      }
      forall n | n in other ensures n in files {
        var i :| 0 <= i < |members| && members[i].name == n;
      }
    }
  }

  /** `_deterministic_archive`: the members in the order of their names. */
  function ArchiveOf(files: Files): seq<Member> {
    var names := AllNames(files);
    seq(|names|, i requires 0 <= i < |names| => assert names[i] in names; Member(names[i], true, files[names[i]]))
  }

  lemma ArchiveUnpacks(env: Env, files: Files)
    requires forall n :: n in files ==> env.safe(n)
    ensures Unpacks(env, ArchiveOf(files), files)
  {
    var names, members := AllNames(files), ArchiveOf(files);
    StrOrder();
    assert IsSorted(StrLe, files.Keys, names);
    forall n | n in files ensures exists i :: 0 <= i < |members| && members[i].name == n {
      var i :| 0 <= i < |names| && names[i] == n;
      assert members[i].name == n;
    }
    forall i | 0 <= i < |members| ensures members[i].name in files {
      assert names[i] in names;
    }
  }

  /** The loops of `create_evidence_package` over hosts and commands. */
  method CollectOutputs(env: Env, verbatim: bool, outputs: seq<Output>) returns (files: Files, entries: seq<Entry>)
    ensures files == OutputFiles(verbatim, outputs) && entries == EntriesOf(env, verbatim, outputs)
  {
    files, entries := map[], [];
    for i := 0 to |outputs|
      invariant files == OutputFiles(verbatim, outputs[..i]) && entries == EntriesOf(env, verbatim, outputs[..i])
    {
      assert outputs[..i + 1][..i] == outputs[..i];
      var o := outputs[i];
      files := files[Full(PathOf(verbatim, o)) := o.text];
      entries := entries + [EntryOf(env, verbatim, o)];
    }
    assert outputs[..|outputs|] == outputs;
  }

  /** The assembly in `create_evidence_package`; None stands for a refused package. */
  method CreatePackage(env: Env, verbatim: bool, outputs: seq<Output>, generated: Files)
    returns (archive: Option<seq<Member>>, ghost package: Files, ghost found: seq<Finding>, ghost manifest: Manifest)
    requires GeneratedFits(generated)
    ensures IsPackage(env, verbatim, outputs, generated, package, found, manifest)
    ensures archive.Some? <==>
      NothingLeaks(found, manifest.entries) && env.schema(manifest) && forall n :: n in package ==> env.safe(n)
    ensures archive.Some? ==> archive.value == ArchiveOf(package)
    ensures archive.Some? <==> Written(env, verbatim, outputs, generated)
    ensures package == Package(env, verbatim, outputs, generated) && manifest == ManifestOf(env, verbatim, outputs, generated)
  {
    package, manifest := Package(env, verbatim, outputs, generated), ManifestOf(env, verbatim, outputs, generated);
    found := ScanFiles(env, package, manifest.entries);
    PackageIs(env, verbatim, outputs, generated);
    archive := None;
    var files, entries := CollectOutputs(env, verbatim, outputs);
    files := files + Named(generated);
    OutputsApart(verbatim, outputs, generated);
    var resources := ResourcesOf(env, files);
    var findings, scanned := ScanPackageMembers(env, files, entries);
    if !Allowed(findings, entries) {
      return;
    }
    var m := Manifest(Counted(entries, findings), resources, ScanResult(env, findings, scanned, verbatim), verbatim);
    if !env.schema(m) {
      return;
    }
    files := files[ManifestName := env.encode(m)];
    files := files[ChecksumName := Checksums(env, files, AllNames(files))];
    if exists n :: n in files && !env.safe(n) {
      return;
    }
    archive := Some(ArchiveOf(files));
  }

  /** From archive to archive: what was created is verified, exactly when its outputs have different
      paths and no member name contains a line break; and then the very members come back. */
  lemma CreatedIsVerified(env: Env, verbatim: bool, outputs: seq<Output>, generated: Files)
    requires EnvFits(env) && GeneratedFits(generated) && Written(env, verbatim, outputs, generated)
    ensures var files, m := Package(env, verbatim, outputs, generated), ManifestOf(env, verbatim, outputs, generated);
            (exists read, n :: Unpacks(env, ArchiveOf(files), read) && Accepted(env, read, n) && ScanVerified(env, read, n)) <==>
            (DistinctPaths(EntriesOf(env, verbatim, outputs)) && forall n :: n in files ==> Unbroken(Relative(n)))
    ensures forall read, n :: Unpacks(env, ArchiveOf(Package(env, verbatim, outputs, generated)), read) && Accepted(env, read, n) ==>
              read == Package(env, verbatim, outputs, generated) && n == ManifestOf(env, verbatim, outputs, generated)
  {
    var files, m := Package(env, verbatim, outputs, generated), ManifestOf(env, verbatim, outputs, generated);
    ArchiveUnpacks(env, files);
    UnpackedOnce(env, ArchiveOf(files), files);
    MembersAgree(env, verbatim, outputs, generated);
    PackageAccepted(env, verbatim, outputs, generated);
  }
}
