// alred/secret_scan.py: the line scanner with its stack of parent lines, banner and
// private-key states, and the sanitizer built on it.
module SecretScan {
  import opened SecretRules

  /** A parent line: its indentation and its stripped text. */
  datatype Parent = Parent(indent: nat, text: string)

  /** Blank lines and comments. */
  predicate Skipped(r: Rules, line: string) {
    var s := r.stripped(line);
    s == "" || s[0] == '!' || s[0] == '#'
  }

  /** Some parent opens a BGP neighbour context. */
  predicate InBgp(r: Rules, parents: seq<Parent>) {
    exists p :: p in parents && r.bgpParent(p.text)
  }

  /** Some parent opens a key context; a bare `key` does together with the line that follows it. */
  predicate InKey(r: Rules, parents: seq<Parent>) {
    || (exists p :: p in parents && r.keyParent(p.text))
    || (exists i :: 0 <= i < |parents| - 1 && r.bareKey(parents[i].text))
  }

  /** `_nxos_context_rule` */
  function ContextRule(r: Rules, line: string, parents: seq<Parent>): Option<string> {
    if r.policy(line) then None
    else if r.direct(line).Some? then r.direct(line)
    else if r.passwordLine(line) && InBgp(r, parents) then Some("NXOS_BGP_NEIGHBOR_PASSWORD")
    else if r.keyStringLine(line) && InKey(r, parents) then Some("NXOS_KEY_CHAIN_MATERIAL")
    else None
  }

  /** The parents that stay when a line of this indentation arrives. */
  function Pop(parents: seq<Parent>, indent: nat): seq<Parent> {
    if parents != [] && parents[|parents| - 1].indent >= indent then Pop(parents[..|parents| - 1], indent) else parents
  }

  datatype State = State(parents: seq<Parent>, banner: Option<string>, keyStart: Option<nat>)

  datatype Verdict = InKeyBlock | KeyBegins | High(rule: string) | Low(rule: string) | Clean

  /** A line that changes the stack of parents. */
  predicate Touches(r: Rules, s: State, line: string) {
    r.nxos && s.keyStart.None? && !r.keyBegin(line) && s.banner.None? && r.bannerDelimiter(line).None? && !Skipped(r, line)
  }

  /** What the scanner makes of the line that follows. */
  function Judge(r: Rules, s: State, line: string): Verdict {
    if s.keyStart.Some? then InKeyBlock
    else if r.keyBegin(line) then KeyBegins
    else if s.banner.Some? then
      if r.stripped(line) == s.banner.value then Clean
      else if r.common(line).Some? then High(r.common(line).value)
      else if r.keyword(line) then Low("NXOS_BANNER_SECRET_CANDIDATE") else Clean
    else if (r.nxos && r.bannerDelimiter(line).Some?) || Skipped(r, line) then Clean
    else
      var context := if r.nxos then ContextRule(r, line, Pop(s.parents, r.indent(line))) else None;
      var rule := if context.Some? then context else r.common(line);
      if rule.Some? then High(rule.value)
      else if r.commonLow(line).Some? then Low(r.commonLow(line).value)
      else if r.nxos && r.keyword(line) && !r.policy(line) then Low("SECRET_KEYWORD_ONLY") else Clean
  }

  /** The state after the line with this number. */
  function Next(r: Rules, s: State, line: string, number: nat): State {
    if s.keyStart.Some? then
      if r.keyEnd(line) then s.(keyStart := None) else s
    else if r.keyBegin(line) then s.(keyStart := Some(number))
    else if s.banner.Some? then
      if r.stripped(line) == s.banner.value then s.(banner := None) else s
    else if r.nxos && r.bannerDelimiter(line).Some? then s.(banner := r.bannerDelimiter(line))
    else if Touches(r, s, line) then
      s.(parents := Pop(s.parents, r.indent(line)) + [Parent(r.indent(line), r.stripped(line))])
    else if Skipped(r, line) then s
    else s.(parents := Pop(s.parents, r.indent(line)))
  }

  function After(r: Rules, lines: seq<string>): State {
    if lines == [] then State([], None, None)
    else Next(r, After(r, lines[..|lines| - 1]), lines[|lines| - 1], |lines|)
  }

  function VerdictAt(r: Rules, lines: seq<string>, i: nat): Verdict
    requires i < |lines|
  {
    Judge(r, After(r, lines[..i]), lines[i])
  }

  /** What one line adds to the findings; a private key is one finding, made when it ends. */
  function LineFinding(r: Rules, s: State, line: string, number: nat): seq<Finding> {
    match Judge(r, s, line)
    case InKeyBlock => if r.keyEnd(line) then [Finding(PrivateKey, true, s.keyStart.value, number)] else []
    case High(rule) => [Finding(rule, true, number, number)]
    case Low(rule) => [Finding(rule, false, number, number)]
    case _ => []
  }

  function Found(r: Rules, lines: seq<string>): seq<Finding> {
    if lines == [] then []
    else
      var n := |lines|;
      Found(r, lines[..n - 1]) + LineFinding(r, After(r, lines[..n - 1]), lines[n - 1], n)
  }

  /** All findings of `scan_text`; an unfinished private key reaches to the end. */
  function Findings(r: Rules, lines: seq<string>): seq<Finding> {
    var s := After(r, lines);
    Found(r, lines) + if s.keyStart.Some? then [Finding(PrivateKey, true, s.keyStart.value, |lines|)] else []
  }

  /** The sanitized lines: a marker for each high finding, one for a whole private key. */
  function Sanitized(r: Rules, lines: seq<string>): seq<string> {
    if lines == [] then []
    else Sanitized(r, lines[..|lines| - 1]) + Emitted(VerdictAt(r, lines, |lines| - 1), lines[|lines| - 1])
  }

  function Emitted(v: Verdict, line: string): seq<string> {
    match v
    case InKeyBlock => []
    case KeyBegins => [Marker(PrivateKey)]
    case High(rule) => [Marker(rule)]
    case _ => [line]
  }

  // -------------------------------------------------------------- the stack of parents

  ghost predicate Increasing(parents: seq<Parent>) {
    forall i, j :: 0 <= i < j < |parents| ==> parents[i].indent < parents[j].indent
  }

  /** On an increasing stack, popping leaves exactly the parents of smaller indentation. */
  lemma {:induction false} PopIs(parents: seq<Parent>, indent: nat)
    requires Increasing(parents)
    ensures Pop(parents, indent) <= parents && Increasing(Pop(parents, indent))
    ensures forall p :: p in Pop(parents, indent) <==> p in parents && p.indent < indent
    decreases |parents|
  {
    if parents != [] && parents[|parents| - 1].indent >= indent {
      PopIs(parents[..|parents| - 1], indent);
    }
  }

  lemma {:induction false} ParentsIncrease(r: Rules, lines: seq<string>)
    ensures Increasing(After(r, lines).parents)
  {
    if lines != [] {
      var n := |lines| - 1;
      ParentsIncrease(r, lines[..n]);
      var before := After(r, lines[..n]).parents;
      PopIs(before, r.indent(lines[n]));
      var kept := Pop(before, r.indent(lines[n]));
      forall i | 0 <= i < |kept| ensures kept[i].indent < r.indent(lines[n]) {
        assert kept[i] in kept;
      }
    }
  }

  /** One more line: the state, the sanitized lines and the findings. */
  lemma OneMoreLine(r: Rules, lines: seq<string>, line: string)
    ensures After(r, lines + [line]) == Next(r, After(r, lines), line, |lines| + 1)
    ensures Sanitized(r, lines + [line]) == Sanitized(r, lines) + Emitted(Judge(r, After(r, lines), line), line)
    ensures Found(r, lines + [line]) == Found(r, lines) + LineFinding(r, After(r, lines), line, |lines| + 1)
  {
    assert (lines + [line])[..|lines|] == lines;
  }

  // -------------------------------------------------- the machine, by the lines themselves

  /** One line further: when a private key covers it. */
  lemma KeyCoversNext(r: Rules, lines: seq<string>, i: nat)
    requires i < |lines|
    ensures KeyCovers(r, lines, i) ==> (KeyCovers(r, lines, i + 1) <==> !r.keyEnd(lines[i]))
    ensures !KeyCovers(r, lines, i) ==> (KeyCovers(r, lines, i + 1) <==> r.keyBegin(lines[i]))
    ensures forall k :: KeyFrom(r, lines, k, i) && !r.keyEnd(lines[i]) ==> KeyFrom(r, lines, k, i + 1)
    ensures !KeyCovers(r, lines, i) && r.keyBegin(lines[i]) ==> KeyFrom(r, lines, i, i + 1)
  {
    var next := i + 1;
    assert KeyCovers(r, lines, i) <==> exists k :: KeyFrom(r, lines, k, i);
    assert KeyCovers(r, lines, next) <==> exists k :: KeyFrom(r, lines, k, next);
    if k :| KeyFrom(r, lines, k, next) {
      if k < i {
        assert KeyFrom(r, lines, k, i);
      }
    }
    if k :| KeyFrom(r, lines, k, i) && !r.keyEnd(lines[i]) {
      assert KeyFrom(r, lines, k, next);
    }
    if !KeyCovers(r, lines, i) && r.keyBegin(lines[i]) {
      assert KeyFrom(r, lines, i, next);
    }
  }

  /** Before line `i` the machine is in the private key and the banner that the lines say. */
  ghost predicate InRegion(r: Rules, lines: seq<string>, i: nat)
    requires i <= |lines|
  {
    var s := After(r, lines[..i]);
    && (s.keyStart.Some? <==> KeyCovers(r, lines, i))
    && (s.keyStart.Some? ==> s.keyStart.value > 0 && KeyFrom(r, lines, s.keyStart.value - 1, i))
    && s.banner == BannerBefore(r, lines, i)
  }

  lemma {:induction false} RegionIs(r: Rules, lines: seq<string>, i: nat)
    requires i <= |lines|
    ensures InRegion(r, lines, i)
  {
    if i > 0 {
      RegionIs(r, lines, i - 1);
      KeyCoversNext(r, lines, i - 1);
      assert lines[..i][..i - 1] == lines[..i - 1];
    }
  }

  /** The stack before line `i` holds the lines of configuration that overhang it, and no others. */
  ghost predicate StackIs(r: Rules, lines: seq<string>, i: nat)
    requires i <= |lines|
  {
    forall p :: p in After(r, lines[..i]).parents <==> exists k :: StackEntry(r, lines, k, i, p)
  }

  ghost predicate StackEntry(r: Rules, lines: seq<string>, k: int, i: int, p: Parent) {
    Overhangs(r, lines, k, i) && p == Parent(r.indent(lines[k]), r.stripped(lines[k]))
  }

  lemma TouchesIsConfig(r: Rules, lines: seq<string>, i: nat)
    requires i < |lines| && r.nxos
    ensures Touches(r, After(r, lines[..i]), lines[i]) <==> IsConfig(r, lines, i)
  {
    RegionIs(r, lines, i);
  }

  lemma OverhangsNext(r: Rules, lines: seq<string>, k: int, i: nat)
    requires i < |lines|
    ensures Overhangs(r, lines, k, i + 1) <==>
      if k == i then IsConfig(r, lines, i)
      else Overhangs(r, lines, k, i) && (IsConfig(r, lines, i) ==> r.indent(lines[k]) < r.indent(lines[i]))
  {}

  lemma {:induction false} StackIsSo(r: Rules, lines: seq<string>, i: nat)
    requires i <= |lines| && r.nxos
    ensures StackIs(r, lines, i)
  {
    if i > 0 {
      StackIsSo(r, lines, i - 1);
      StackStep(r, lines, i - 1);
    }
  }

  lemma StackStep(r: Rules, lines: seq<string>, i: nat)
    requires i < |lines| && r.nxos && StackIs(r, lines, i)
    ensures StackIs(r, lines, i + 1)
  {
    var before, after := After(r, lines[..i]), After(r, lines[..i + 1]);
    assert lines[..i + 1][..i] == lines[..i];
    TouchesIsConfig(r, lines, i);
    ParentsIncrease(r, lines[..i]);
    PopIs(before.parents, r.indent(lines[i]));
    var next := i + 1;
    forall p ensures p in after.parents <==> exists k :: StackEntry(r, lines, k, next, p) {
      if p in after.parents {
        if p in before.parents {
          var k :| StackEntry(r, lines, k, i, p);
          OverhangsNext(r, lines, k, i);
          if IsConfig(r, lines, i) && p.indent >= r.indent(lines[i]) {
            OverhangsNext(r, lines, i, i);
            assert StackEntry(r, lines, i, next, p);
          } else {
            assert StackEntry(r, lines, k, next, p);
          }
        } else {
          OverhangsNext(r, lines, i, i);
          assert StackEntry(r, lines, i, next, p);
        }
      }
      if k :| StackEntry(r, lines, k, next, p) {
        OverhangsNext(r, lines, k, i);
        if k != i {
          assert StackEntry(r, lines, k, i, p);
        }
      }
    }
  }

  /** What stays of the stack when line `i` arrives are the lines that enclose it. */
  ghost predicate EnclosingEntry(r: Rules, lines: seq<string>, k: int, i: int, p: Parent) {
    Encloses(r, lines, k, i) && p == Parent(r.indent(lines[k]), r.stripped(lines[k]))
  }

  function Kept(r: Rules, lines: seq<string>, i: nat): seq<Parent>
    requires i < |lines|
  {
    Pop(After(r, lines[..i]).parents, r.indent(lines[i]))
  }

  lemma KeptIs(r: Rules, lines: seq<string>, i: nat)
    requires i < |lines| && r.nxos
    ensures Increasing(Kept(r, lines, i))
    ensures forall p :: p in Kept(r, lines, i) <==> exists k :: EnclosingEntry(r, lines, k, i, p)
  {
    StackIsSo(r, lines, i);
    ParentsIncrease(r, lines[..i]);
    var stack := After(r, lines[..i]).parents;
    PopIs(stack, r.indent(lines[i]));
    forall p ensures p in Kept(r, lines, i) <==> exists k :: EnclosingEntry(r, lines, k, i, p) {
      if p in Kept(r, lines, i) {
        var k :| StackEntry(r, lines, k, i, p);
        assert EnclosingEntry(r, lines, k, i, p);
      }
      if k :| EnclosingEntry(r, lines, k, i, p) {
        assert StackEntry(r, lines, k, i, p);
      }
    }
  }

  lemma InBgpIs(r: Rules, lines: seq<string>, i: nat)
    requires i < |lines| && r.nxos
    ensures InBgp(r, Kept(r, lines, i)) <==> UnderBgp(r, lines, i)
  {
    KeptIs(r, lines, i);
    if k :| Encloses(r, lines, k, i) && r.bgpParent(r.stripped(lines[k])) {
      var p := Parent(r.indent(lines[k]), r.stripped(lines[k]));
      assert EnclosingEntry(r, lines, k, i, p);
    }
  }

  /** Of two enclosing lines the later one is indented deeper. */
  lemma DeeperIsLater(r: Rules, lines: seq<string>, k: int, l: int, i: nat)
    requires Encloses(r, lines, k, i) && Encloses(r, lines, l, i)
    ensures k < l <==> r.indent(lines[k]) < r.indent(lines[l])
  {}

  /** A bare `key` on the stack that another entry follows. */
  ghost predicate BareKeyAt(r: Rules, parents: seq<Parent>, a: int) {
    0 <= a < |parents| - 1 && r.bareKey(parents[a].text)
  }

  lemma BareKeyIs(r: Rules, lines: seq<string>, i: nat, a: nat)
    requires i < |lines| && r.nxos && BareKeyAt(r, Kept(r, lines, i), a)
    ensures exists k, l :: Encloses(r, lines, k, i) && Encloses(r, lines, l, i) && k < l && r.bareKey(r.stripped(lines[k]))
  {
    KeptIs(r, lines, i);
    var kept := Kept(r, lines, i);
    var p, q := kept[a], kept[a + 1];
    assert p in kept && q in kept;
    var k :| EnclosingEntry(r, lines, k, i, p);
    var l :| EnclosingEntry(r, lines, l, i, q);
    DeeperIsLater(r, lines, k, l, i);
  }

  lemma BareKeyFound(r: Rules, lines: seq<string>, i: nat, k: int, l: int)
    requires i < |lines| && r.nxos
    requires Encloses(r, lines, k, i) && Encloses(r, lines, l, i) && k < l && r.bareKey(r.stripped(lines[k]))
    ensures exists a :: BareKeyAt(r, Kept(r, lines, i), a)
  {
    KeptIs(r, lines, i);
    var kept := Kept(r, lines, i);
    var p, q := Parent(r.indent(lines[k]), r.stripped(lines[k])), Parent(r.indent(lines[l]), r.stripped(lines[l]));
    assert EnclosingEntry(r, lines, k, i, p) && EnclosingEntry(r, lines, l, i, q);
    assert p in kept && q in kept;
    var a :| 0 <= a < |kept| && kept[a] == p;
    var b :| 0 <= b < |kept| && kept[b] == q;
    DeeperIsLater(r, lines, k, l, i);
    assert BareKeyAt(r, kept, a);
  }

  lemma KeyParentIs(r: Rules, lines: seq<string>, i: nat)
    requires i < |lines| && r.nxos
    ensures (exists p :: p in Kept(r, lines, i) && r.keyParent(p.text)) <==>
            exists k :: Encloses(r, lines, k, i) && r.keyParent(r.stripped(lines[k]))
  {
    KeptIs(r, lines, i);
    var kept := Kept(r, lines, i);
    if k :| Encloses(r, lines, k, i) && r.keyParent(r.stripped(lines[k])) {
      var p := Parent(r.indent(lines[k]), r.stripped(lines[k]));
      assert EnclosingEntry(r, lines, k, i, p);
    }
    if p :| p in kept && r.keyParent(p.text) {
      var k :| EnclosingEntry(r, lines, k, i, p);
      assert Encloses(r, lines, k, i) && r.keyParent(r.stripped(lines[k]));
    }
  }

  lemma BareKeysAre(r: Rules, lines: seq<string>, i: nat)
    requires i < |lines| && r.nxos
    ensures (exists a :: BareKeyAt(r, Kept(r, lines, i), a)) <==>
            exists k, l :: Encloses(r, lines, k, i) && Encloses(r, lines, l, i) && k < l && r.bareKey(r.stripped(lines[k]))
  {
    var kept := Kept(r, lines, i);
    if a :| BareKeyAt(r, kept, a) {
      BareKeyIs(r, lines, i, a);
    }
    if k, l :| Encloses(r, lines, k, i) && Encloses(r, lines, l, i) && k < l && r.bareKey(r.stripped(lines[k])) {
      BareKeyFound(r, lines, i, k, l);
    }
  }

  lemma InKeyIs(r: Rules, lines: seq<string>, i: nat)
    requires i < |lines| && r.nxos
    ensures InKey(r, Kept(r, lines, i)) <==> UnderKey(r, lines, i)
  {
    KeyParentIs(r, lines, i);
    BareKeysAre(r, lines, i);
    var kept := Kept(r, lines, i);
    assert (exists a :: 0 <= a < |kept| - 1 && r.bareKey(kept[a].text)) <==> exists a :: BareKeyAt(r, kept, a) by {
      if a :| BareKeyAt(r, kept, a) {
        assert r.bareKey(kept[a].text);
      }
      if a :| 0 <= a < |kept| - 1 && r.bareKey(kept[a].text) {
        assert BareKeyAt(r, kept, a);
      }
    }
  }

  function AsVerdict(report: Option<Report>): Verdict {
    if report.None? then Clean else if report.value.high then High(report.value.rule) else Low(report.value.rule)
  }

  /** The machine's verdict on a line is what the lines call for. */
  lemma VerdictIs(r: Rules, lines: seq<string>, i: nat)
    requires i < |lines|
    ensures VerdictAt(r, lines, i) ==
      if KeyCovers(r, lines, i) then InKeyBlock
      else if r.keyBegin(lines[i]) then KeyBegins
      else AsVerdict(LineReport(r, lines, i))
  {
    RegionIs(r, lines, i);
    if IsConfig(r, lines, i) && r.nxos {
      InBgpIs(r, lines, i);
      InKeyIs(r, lines, i);
    }
  }

  /** Line `n` makes this finding. */
  ghost predicate MadeAt(r: Rules, lines: seq<string>, n: int, f: Finding) {
    0 <= n < |lines| && f in LineFinding(r, After(r, lines[..n]), lines[n], n + 1)
  }

  lemma {:induction false} FoundIs(r: Rules, lines: seq<string>, n: nat, f: Finding)
    requires n <= |lines|
    ensures f in Found(r, lines[..n]) <==> exists i :: i < n && MadeAt(r, lines, i, f)
  {
    if n > 0 {
      var last := n - 1;
      FoundIs(r, lines, last, f);
      assert lines[..n][..last] == lines[..last];
      assert f in Found(r, lines[..n]) <==> f in Found(r, lines[..last]) || MadeAt(r, lines, last, f);
    }
  }

  lemma EarlierKey(r: Rules, lines: seq<string>, k: int, l: int, i: int)
    requires KeyFrom(r, lines, k, i) && l <= i
    ensures l <= k || KeyCovers(r, lines, l)
  {
    if k < l {
      assert KeyFrom(r, lines, k, l);
    }
  }

  lemma OneKeyAtATime(r: Rules, lines: seq<string>, k: int, l: int, i: int)
    requires KeyFrom(r, lines, k, i) && KeyFrom(r, lines, l, i)
    ensures k == l
  {
    EarlierKey(r, lines, k, l, i);
    EarlierKey(r, lines, l, k, i);
  }

  /** The private key that is open before line `i`. */
  lemma OpenKeyIs(r: Rules, lines: seq<string>, k: nat, i: nat)
    requires i <= |lines|
    ensures After(r, lines[..i]).keyStart == Some(k + 1) <==> KeyFrom(r, lines, k, i)
  {
    RegionIs(r, lines, i);
    var s := After(r, lines[..i]).keyStart;
    if KeyFrom(r, lines, k, i) {
      assert KeyCovers(r, lines, i);
      OneKeyAtATime(r, lines, k, s.value - 1, i);
    }
  }

  /** What a line outside private keys makes is what is expected there. */
  lemma MadeOutsideKeys(r: Rules, lines: seq<string>, i: nat, f: Finding)
    requires i < |lines| && !KeyCovers(r, lines, i) && !r.keyBegin(lines[i])
    ensures MadeAt(r, lines, i, f) <==> ExpectedAt(r, lines, i, f)
  {
    VerdictIs(r, lines, i);
  }

  lemma MadeInKey(r: Rules, lines: seq<string>, i: nat, f: Finding)
    requires i < |lines| && KeyCovers(r, lines, i)
    ensures MadeAt(r, lines, i, f) <==>
      (r.keyEnd(lines[i]) && f.rule == PrivateKey && f.high && f.end == i + 1 && f.line > 0 && KeyFrom(r, lines, f.line - 1, i))
  {
    RegionIs(r, lines, i);
    VerdictIs(r, lines, i);
    if f.line > 0 {
      OpenKeyIs(r, lines, f.line - 1, i);
    }
  }

  lemma MadeIsExpected(r: Rules, lines: seq<string>, i: nat, f: Finding)
    requires MadeAt(r, lines, i, f)
    ensures Expected(r, lines, f)
  {
    VerdictIs(r, lines, i);
    if KeyCovers(r, lines, i) {
      MadeInKey(r, lines, i, f);
      var k := f.line - 1;
      assert ExpectedAt(r, lines, k, f);
    } else {
      assert !r.keyBegin(lines[i]);
      MadeOutsideKeys(r, lines, i, f);
    }
  }

  lemma EndedKeyIsFound(r: Rules, lines: seq<string>, i: nat, f: Finding)
    requires ExpectedAt(r, lines, i, f) && r.keyBegin(lines[i]) && i < f.end - 1 && r.keyEnd(lines[f.end - 1])
    ensures MadeAt(r, lines, f.end - 1, f)
  {
    var last := f.end - 1;
    assert KeyFrom(r, lines, i, last);
    assert KeyCovers(r, lines, last);
    MadeInKey(r, lines, last, f);
  }

  lemma OpenKeyIsFound(r: Rules, lines: seq<string>, i: nat, f: Finding)
    requires ExpectedAt(r, lines, i, f) && r.keyBegin(lines[i]) && !(i < f.end - 1 && r.keyEnd(lines[f.end - 1]))
    ensures f in Findings(r, lines)
  {
    assert lines[..|lines|] == lines;
    assert KeyFrom(r, lines, i, |lines|);
    OpenKeyIs(r, lines, i, |lines|);
  }

  lemma ExpectedIsFound(r: Rules, lines: seq<string>, i: nat, f: Finding)
    requires ExpectedAt(r, lines, i, f)
    ensures f in Findings(r, lines)
  {
    assert lines[..|lines|] == lines;
    FoundIs(r, lines, |lines|, f);
    if !r.keyBegin(lines[i]) {
      MadeOutsideKeys(r, lines, i, f);
    } else if i < f.end - 1 && r.keyEnd(lines[f.end - 1]) {
      EndedKeyIsFound(r, lines, i, f);
    } else {
      OpenKeyIsFound(r, lines, i, f);
    }
  }

  /** The scan finds what the lines call for, and nothing else. */
  lemma FindingsAre(r: Rules, lines: seq<string>, f: Finding)
    ensures f in Findings(r, lines) <==> Expected(r, lines, f)
  {
    assert lines[..|lines|] == lines;
    FoundIs(r, lines, |lines|, f);
    if f in Found(r, lines) {
      var i :| MadeAt(r, lines, i, f);
      MadeIsExpected(r, lines, i, f);
    } else if f in Findings(r, lines) {
      RegionIs(r, lines, |lines|);
      var k := f.line - 1;
      assert ExpectedAt(r, lines, k, f);
    }
    if i :| ExpectedAt(r, lines, i, f) {
      ExpectedIsFound(r, lines, i, f);
    }
  }

  lemma {:induction false} SanitizedIs(r: Rules, lines: seq<string>, n: nat)
    requires n <= |lines|
    ensures Sanitized(r, lines[..n]) == Redacted(r, lines, n)
  {
    if n > 0 {
      SanitizedIs(r, lines, n - 1);
      assert lines[..n][..n - 1] == lines[..n - 1];
      VerdictIs(r, lines, n - 1);
    }
  }

  // ------------------------------------------------------------------ the code

  method PopParents(parents: seq<Parent>, indent: nat) returns (kept: seq<Parent>)
    ensures kept == Pop(parents, indent)
  {
    kept := parents;
    while kept != [] && kept[|kept| - 1].indent >= indent
      invariant Pop(kept, indent) == Pop(parents, indent)
      decreases |kept|
    {
      kept := kept[..|kept| - 1];
    }
  }

  /** A line outside private keys, banners, banner headers, blanks and comments. */
  method ScanConfigLine(r: Rules, s: State, line: string, number: nat) returns (next: State, found: seq<Finding>)
    requires s.keyStart.None? && !r.keyBegin(line) && s.banner.None? && !Skipped(r, line)
    requires r.nxos ==> r.bannerDelimiter(line).None?
    ensures next == Next(r, s, line, number) && found == LineFinding(r, s, line, number)
  {
    var indent := r.indent(line);
    var parents := PopParents(s.parents, indent);
    var rule := None;
    if r.nxos {
      rule := ContextRule(r, line, parents);
    }
    if rule.None? {
      rule := r.common(line);
    }
    found := [];
    if rule.Some? {
      found := [Finding(rule.value, true, number, number)];
    } else {
      var low := r.commonLow(line);
      if low.Some? {
        found := [Finding(low.value, false, number, number)];
      } else if r.nxos && r.keyword(line) && !r.policy(line) {
        found := [Finding("SECRET_KEYWORD_ONLY", false, number, number)];
      }
    }
    if r.nxos {
      parents := parents + [Parent(indent, r.stripped(line))];
    }
    next := s.(parents := parents);
  }

  /** One iteration of the scanning loop. */
  method ScanLine(r: Rules, s: State, line: string, number: nat) returns (next: State, found: seq<Finding>)
    ensures next == Next(r, s, line, number) && found == LineFinding(r, s, line, number)
  {
    next, found := s, [];
    if s.keyStart.Some? {
      if r.keyEnd(line) {
        found := [Finding(PrivateKey, true, s.keyStart.value, number)];
        next := s.(keyStart := None);
      }
    } else if r.keyBegin(line) {
      next := s.(keyStart := Some(number));
    } else if s.banner.Some? {
      if r.stripped(line) == s.banner.value {
        next := s.(banner := None);
      } else {
        var rule := r.common(line);
        if rule.Some? {
          found := [Finding(rule.value, true, number, number)];
        } else if r.keyword(line) {
          found := [Finding("NXOS_BANNER_SECRET_CANDIDATE", false, number, number)];
        }
      }
    } else if r.nxos && r.bannerDelimiter(line).Some? {
      next := s.(banner := r.bannerDelimiter(line));
    } else if !Skipped(r, line) {
      next, found := ScanConfigLine(r, s, line, number);
    }
  }

  /** `scan_text` */
  method ScanText(r: Rules, lines: seq<string>) returns (findings: seq<Finding>)
    ensures findings == Findings(r, lines)
    ensures forall f :: f in findings <==> Expected(r, lines, f)
  {
    findings := [];
    var state := State([], None, None);
    for i := 0 to |lines|
      invariant findings == Found(r, lines[..i]) && state == After(r, lines[..i])
    {
      assert lines[..i + 1][..i] == lines[..i];
      var found;
      state, found := ScanLine(r, state, lines[i], i + 1);
      findings := findings + found;
    }
    assert lines[..|lines|] == lines;
    if state.keyStart.Some? {
      findings := findings + [Finding(PrivateKey, true, state.keyStart.value, |lines|)];
    }
    forall f ensures f in findings <==> Expected(r, lines, f) {
      FindingsAre(r, lines, f);
    }
  }

  /** The dictionary of high findings by their first line; a later one would win. */
  function HighByStart(findings: seq<Finding>): map<nat, Finding> {
    if findings == [] then map[]
    else
      var last := findings[|findings| - 1];
      var before := HighByStart(findings[..|findings| - 1]);
      if last.high then before[last.line := last] else before
  }

  /** The private key that is open before line `j`. */
  function KeyAt(r: Rules, lines: seq<string>, j: nat): Option<nat>
    requires j <= |lines|
  {
    After(r, lines[..j]).keyStart
  }

  /** From line `i` on a private key has been open, up to before line `n`. */
  ghost predicate KeyOpen(r: Rules, lines: seq<string>, i: nat, n: nat) {
    && i < n <= |lines|
    && VerdictAt(r, lines, i).KeyBegins?
    && forall j {:trigger KeyAt(r, lines, j)} :: i < j <= n ==> KeyAt(r, lines, j) == Some(i + 1)
  }

  /** What the dictionary says about line `i` once `n` lines are scanned. */
  ghost predicate Listed(r: Rules, lines: seq<string>, i: int, n: nat, m: map<nat, Finding>) {
    0 <= i < n <= |lines| &&
    match VerdictAt(r, lines, i)
    case InKeyBlock => true
    case KeyBegins =>
      if i + 1 in m
      then m[i + 1].rule == PrivateKey && i + 1 < m[i + 1].end <= n && KeyOpen(r, lines, i, m[i + 1].end - 1)
           && KeyAt(r, lines, m[i + 1].end).None?
      else KeyOpen(r, lines, i, n)
    case High(rule) => i + 1 in m && m[i + 1] == Finding(rule, true, i + 1, i + 1)
    case _ => i + 1 !in m
  }

  ghost predicate AllListed(r: Rules, lines: seq<string>, n: nat, m: map<nat, Finding>) {
    && n <= |lines|
    && (forall k :: k in m ==> 1 <= k <= n)
    && (forall i {:trigger Listed(r, lines, i, n, m)} :: 0 <= i < n ==> Listed(r, lines, i, n, m))
    && (KeyAt(r, lines, n).Some? ==>
         var s := KeyAt(r, lines, n).value; s >= 1 && KeyOpen(r, lines, s - 1, n) && s !in m)
  }

  lemma HighByStartExtends(findings: seq<Finding>, f: Finding)
    ensures HighByStart(findings + [f]) ==
            if f.high then HighByStart(findings)[f.line := f] else HighByStart(findings)
    ensures HighByStart(findings + []) == HighByStart(findings)
  {
    assert (findings + [f])[..|findings|] == findings;
    assert findings + [] == findings;
  }

  /** Where a private key is open, the next line leaves it open or ends it. */
  lemma KeyStays(r: Rules, lines: seq<string>, i: nat, n: nat)
    requires KeyOpen(r, lines, i, n) && n < |lines|
    ensures VerdictAt(r, lines, n).InKeyBlock?
    ensures KeyAt(r, lines, n + 1).Some? ==> KeyOpen(r, lines, i, n + 1)
  {
    assert lines[..n + 1][..n] == lines[..n];
    assert KeyAt(r, lines, n) == Some(i + 1);
  }

  lemma KeyOpens(r: Rules, lines: seq<string>, n: nat)
    requires n < |lines| && VerdictAt(r, lines, n).KeyBegins?
    ensures KeyAt(r, lines, n + 1) == Some(n + 1) && KeyOpen(r, lines, n, n + 1)
  {
    assert lines[..n + 1][..n] == lines[..n];
  }

  lemma NoKeyOpens(r: Rules, lines: seq<string>, n: nat)
    requires n < |lines| && !VerdictAt(r, lines, n).KeyBegins? && !VerdictAt(r, lines, n).InKeyBlock?
    ensures KeyAt(r, lines, n + 1).None?
  {
    assert lines[..n + 1][..n] == lines[..n];
  }

  /** Entries of earlier lines are not affected by what a line outside their private key adds. */
  lemma ListedStays(r: Rules, lines: seq<string>, i: int, n: nat, m: map<nat, Finding>, m': map<nat, Finding>)
    requires Listed(r, lines, i, n, m) && n < |lines|
    requires i + 1 in m' <==> i + 1 in m
    requires i + 1 in m ==> m'[i + 1] == m[i + 1]
    requires VerdictAt(r, lines, i).KeyBegins? && i + 1 !in m ==> KeyOpen(r, lines, i, n + 1)
    ensures Listed(r, lines, i, n + 1, m')
  {}

  /** Only one key is open at a time. */
  lemma OpenKeyIsTheOne(r: Rules, lines: seq<string>, i: int, n: nat, m: map<nat, Finding>)
    requires Listed(r, lines, i, n, m) && VerdictAt(r, lines, i).KeyBegins? && i + 1 !in m
    ensures KeyAt(r, lines, n) == Some(i + 1)
  {}

  lemma {:induction false} FoundListed(r: Rules, lines: seq<string>, n: nat)
    requires n <= |lines|
    ensures AllListed(r, lines, n, HighByStart(Found(r, lines[..n])))
  {
    if n == 0 {
      assert lines[..0] == [];
    } else {
      FoundListed(r, lines, n - 1);
      assert lines[..n][..n - 1] == lines[..n - 1];
      LineListed(r, lines, n - 1, HighByStart(Found(r, lines[..n - 1])));
      var s := After(r, lines[..n - 1]);
      var added := LineFinding(r, s, lines[n - 1], n);
      if added == [] {
        assert Found(r, lines[..n - 1]) + added == Found(r, lines[..n - 1]);
      } else {
        HighByStartExtends(Found(r, lines[..n - 1]), added[0]);
      }
    }
  }

  /** The dictionary after one more line. */
  function Recorded(m: map<nat, Finding>, added: seq<Finding>): map<nat, Finding> {
    if added != [] && added[0].high then m[added[0].line := added[0]] else m
  }

  lemma LineListed(r: Rules, lines: seq<string>, n: nat, m: map<nat, Finding>)
    requires n < |lines| && AllListed(r, lines, n, m)
    ensures AllListed(r, lines, n + 1, Recorded(m, LineFinding(r, After(r, lines[..n]), lines[n], n + 1)))
  {
    var s := After(r, lines[..n]);
    var m' := Recorded(m, LineFinding(r, s, lines[n], n + 1));
    match VerdictAt(r, lines, n)
    case InKeyBlock => LineInKeyListed(r, lines, n, m, m');
    case KeyBegins =>
      KeyOpens(r, lines, n);
      OtherLineListed(r, lines, n, m, m');
    case _ =>
      NoKeyOpens(r, lines, n);
      OtherLineListed(r, lines, n, m, m');
  }

  /** A line outside private keys touches its own entry only. */
  lemma OtherLineListed(r: Rules, lines: seq<string>, n: nat, m: map<nat, Finding>, m': map<nat, Finding>)
    requires n < |lines| && AllListed(r, lines, n, m) && KeyAt(r, lines, n).None?
    requires forall k :: k != n + 1 ==> (k in m' <==> k in m) && (k in m ==> m'[k] == m[k])
    requires Listed(r, lines, n, n + 1, m')
    requires KeyAt(r, lines, n + 1).Some? ==>
      KeyAt(r, lines, n + 1) == Some(n + 1) && KeyOpen(r, lines, n, n + 1) && n + 1 !in m'
    ensures AllListed(r, lines, n + 1, m')
  {
    var after := n + 1;
    forall i | 0 <= i < after ensures Listed(r, lines, i, after, m') {
      if i < n {
        assert Listed(r, lines, i, n, m);
        if VerdictAt(r, lines, i).KeyBegins? && i + 1 !in m {
          OpenKeyIsTheOne(r, lines, i, n, m);
        }
        ListedStays(r, lines, i, n, m, m');
      }
    }
    forall k | k in m' ensures 1 <= k <= n + 1 {}
  }

  /** A line of a private key leaves the key open, or ends it and makes its entry. */
  lemma LineInKeyListed(r: Rules, lines: seq<string>, n: nat, m: map<nat, Finding>, m': map<nat, Finding>)
    requires n < |lines| && AllListed(r, lines, n, m) && VerdictAt(r, lines, n).InKeyBlock?
    requires m' == Recorded(m, LineFinding(r, After(r, lines[..n]), lines[n], n + 1))
    ensures AllListed(r, lines, n + 1, m')
  {
    var s := KeyAt(r, lines, n).value;
    KeyStays(r, lines, s - 1, n);
    if r.keyEnd(lines[n]) {
      KeyEndListed(r, lines, n, m, s);
    } else {
      KeyLineListed(r, lines, n, m, s);
    }
  }

  lemma KeyEndListed(r: Rules, lines: seq<string>, n: nat, m: map<nat, Finding>, s: nat)
    requires n < |lines| && AllListed(r, lines, n, m) && KeyAt(r, lines, n) == Some(s) && r.keyEnd(lines[n])
    ensures AllListed(r, lines, n + 1, m[s := Finding(PrivateKey, true, s, n + 1)])
  {
    assert lines[..n + 1][..n] == lines[..n];
    var m', after := m[s := Finding(PrivateKey, true, s, n + 1)], n + 1;
    assert Listed(r, lines, s - 1, n, m);
    forall i | 0 <= i < after ensures Listed(r, lines, i, after, m') {
      if i < n && i != s - 1 {
        EntryStays(r, lines, i, n, m, m');
      }
    }
  }

  lemma KeyLineListed(r: Rules, lines: seq<string>, n: nat, m: map<nat, Finding>, s: nat)
    requires n < |lines| && AllListed(r, lines, n, m) && KeyAt(r, lines, n) == Some(s) && !r.keyEnd(lines[n])
    ensures AllListed(r, lines, n + 1, m)
  {
    assert lines[..n + 1][..n] == lines[..n];
    var after := n + 1;
    KeyStays(r, lines, s - 1, n);
    forall i | 0 <= i < after ensures Listed(r, lines, i, after, m) {
      if i < n {
        EntryStays(r, lines, i, n, m, m);
      }
    }
  }

  /** What an earlier line has in the dictionary, if another line is in the private key that is open. */
  lemma EntryStays(r: Rules, lines: seq<string>, i: nat, n: nat, m: map<nat, Finding>, m': map<nat, Finding>)
    requires i < n < |lines| && AllListed(r, lines, n, m) && KeyAt(r, lines, n).Some?
    requires (i + 1 in m' <==> i + 1 in m) && (i + 1 in m ==> m'[i + 1] == m[i + 1])
    requires KeyAt(r, lines, n) == Some(i + 1) ==> KeyOpen(r, lines, i, n + 1)
    ensures Listed(r, lines, i, n + 1, m')
  {
    assert Listed(r, lines, i, n, m);
    if VerdictAt(r, lines, i).KeyBegins? && i + 1 !in m {
      OpenKeyIsTheOne(r, lines, i, n, m);
    }
    ListedStays(r, lines, i, n, m, m');
  }

  /** The dictionary of `sanitize_text`. */
  function HighFindings(r: Rules, lines: seq<string>): map<nat, Finding> {
    HighByStart(Findings(r, lines))
  }

  /** The private key that begins at line `k` takes the lines before line `end`. */
  ghost predicate KeyRuns(r: Rules, lines: seq<string>, k: nat, end: nat) {
    && k < end <= |lines|
    && (forall j {:trigger KeyAt(r, lines, j)} :: k < j < end ==> KeyAt(r, lines, j) == Some(k + 1))
    && (end < |lines| ==> KeyAt(r, lines, end).None?)
  }

  /** What the dictionary answers for a line outside private keys. */
  ghost predicate Answers(r: Rules, lines: seq<string>, k: nat, m: map<nat, Finding>)
    requires k < |lines|
  {
    match VerdictAt(r, lines, k)
    case InKeyBlock => false
    case KeyBegins => k + 1 in m && m[k + 1].rule == PrivateKey && KeyRuns(r, lines, k, m[k + 1].end)
    case High(rule) => k + 1 in m && m[k + 1] == Finding(rule, true, k + 1, k + 1)
    case _ => k + 1 !in m
  }

  lemma AnswersWhenClosed(r: Rules, lines: seq<string>, k: nat, m: map<nat, Finding>)
    requires k < |lines| && AllListed(r, lines, |lines|, m) && KeyAt(r, lines, |lines|).None?
    requires !VerdictAt(r, lines, k).InKeyBlock?
    ensures Answers(r, lines, k, m)
  {
    assert Listed(r, lines, k, |lines|, m);
    if VerdictAt(r, lines, k).KeyBegins? && k + 1 !in m {
      OpenKeyIsTheOne(r, lines, k, |lines|, m);
    }
  }

  lemma AnswersWhenOpen(r: Rules, lines: seq<string>, k: nat, m: map<nat, Finding>, s: nat)
    requires k < |lines| && AllListed(r, lines, |lines|, m) && KeyAt(r, lines, |lines|) == Some(s)
    requires !VerdictAt(r, lines, k).InKeyBlock?
    ensures Answers(r, lines, k, m[s := Finding(PrivateKey, true, s, |lines|)])
  {
    assert Listed(r, lines, k, |lines|, m);
    assert KeyOpen(r, lines, s - 1, |lines|);
    if VerdictAt(r, lines, k).KeyBegins? && k + 1 !in m {
      OpenKeyIsTheOne(r, lines, k, |lines|, m);
    }
  }

  lemma LookUp(r: Rules, lines: seq<string>, k: nat)
    requires k < |lines| && KeyAt(r, lines, k).None?
    ensures Answers(r, lines, k, HighFindings(r, lines))
  {
    AllFoundListed(r, lines);
    HighFindingsAre(r, lines);
    var s := After(r, lines).keyStart;
    if s.Some? {
      AnswersWhenOpen(r, lines, k, HighByStart(Found(r, lines)), s.value);
    } else {
      AnswersWhenClosed(r, lines, k, HighByStart(Found(r, lines)));
    }
  }

  lemma AllFoundListed(r: Rules, lines: seq<string>)
    ensures AllListed(r, lines, |lines|, HighByStart(Found(r, lines)))
    ensures KeyAt(r, lines, |lines|) == After(r, lines).keyStart
  {
    FoundListed(r, lines, |lines|);
    assert lines[..|lines|] == lines;
  }

  lemma HighFindingsAre(r: Rules, lines: seq<string>)
    ensures var s := After(r, lines).keyStart;
            HighFindings(r, lines) == if s.None? then HighByStart(Found(r, lines)) else
              HighByStart(Found(r, lines))[s.value := Finding(PrivateKey, true, s.value, |lines|)]
  {
    var s := After(r, lines).keyStart;
    HighByStartExtends(Found(r, lines), Finding(PrivateKey, true, if s.Some? then s.value else 0, |lines|));
  }

  lemma OneLineSanitized(r: Rules, lines: seq<string>, k: nat)
    requires k < |lines|
    ensures Sanitized(r, lines[..k + 1]) == Sanitized(r, lines[..k]) + Emitted(VerdictAt(r, lines, k), lines[k])
  {
    assert lines[..k + 1][..k] == lines[..k];
  }

  lemma InKeySanitized(r: Rules, lines: seq<string>, k: nat)
    requires k < |lines| && VerdictAt(r, lines, k) == InKeyBlock
    ensures Sanitized(r, lines[..k + 1]) == Sanitized(r, lines[..k])
  {
    OneLineSanitized(r, lines, k);
    assert Sanitized(r, lines[..k]) + [] == Sanitized(r, lines[..k]);
  }

  ghost predicate SameAt(outs: seq<seq<string>>, i: nat) {
    i + 1 < |outs| && outs[i] == outs[i + 1]
  }

  lemma {:induction false} StaysSame(outs: seq<seq<string>>, k: nat, n: nat)
    requires k <= n < |outs| && forall i {:trigger SameAt(outs, i)} :: k <= i < n ==> SameAt(outs, i)
    ensures outs[n] == outs[k]
    decreases n
  {
    if k < n {
      StaysSame(outs, k, n - 1);
      assert SameAt(outs, n - 1);
    }
  }

  /** Lines of a private key add nothing. */
  lemma KeyIsOneMarker(r: Rules, lines: seq<string>, k: nat, n: nat)
    requires k <= n <= |lines| && AllInKey(r, lines, k, n)
    ensures Sanitized(r, lines[..n]) == Sanitized(r, lines[..k])
  {
    var outs := seq(|lines| + 1, i requires 0 <= i <= |lines| => Sanitized(r, lines[..i]));
    forall i | k <= i < n ensures SameAt(outs, i) {
      assert VerdictAt(r, lines, i) == InKeyBlock;
      InKeySanitized(r, lines, i);
    }
    StaysSame(outs, k, n);
  }

  ghost predicate AllInKey(r: Rules, lines: seq<string>, k: nat, n: nat)
    requires k <= n <= |lines|
  {
    forall j {:trigger VerdictAt(r, lines, j)} :: k <= j < n ==> VerdictAt(r, lines, j) == InKeyBlock
  }

  lemma KeyRunsInside(r: Rules, lines: seq<string>, k: nat, end: nat)
    requires KeyRuns(r, lines, k, end)
    ensures AllInKey(r, lines, k + 1, end)
  {
    forall j | k + 1 <= j < end ensures VerdictAt(r, lines, j) == InKeyBlock {
      InsideKey(r, lines, k, end, j);
    }
  }

  lemma InsideKey(r: Rules, lines: seq<string>, k: nat, end: nat, n: nat)
    requires KeyRuns(r, lines, k, end) && k < n < end
    ensures VerdictAt(r, lines, n) == InKeyBlock
  {
    assert KeyAt(r, lines, n) == Some(k + 1);
  }

  /** The state of the sanitizing loop before line `k`, which is outside private keys. */
  ghost predicate SanitizedUpTo(r: Rules, lines: seq<string>, k: nat, output: seq<string>) {
    && k <= |lines|
    && output == Sanitized(r, lines[..k])
    && (k < |lines| ==> KeyAt(r, lines, k).None?)
  }

  /** One iteration of the sanitizing loop. */
  lemma Advance(r: Rules, lines: seq<string>, m: map<nat, Finding>, k: nat, output: seq<string>)
    requires k < |lines| && SanitizedUpTo(r, lines, k, output) && m == HighFindings(r, lines)
    ensures k + 1 !in m ==> SanitizedUpTo(r, lines, k + 1, output + [lines[k]])
    ensures k + 1 in m ==> k < m[k + 1].end && SanitizedUpTo(r, lines, m[k + 1].end, output + [Marker(m[k + 1].rule)])
  {
    LookUp(r, lines, k);
    OneLineSanitized(r, lines, k);
    if VerdictAt(r, lines, k).KeyBegins? {
      KeyRunsInside(r, lines, k, m[k + 1].end);
      KeyIsOneMarker(r, lines, k + 1, m[k + 1].end);
    } else {
      NoKeyOpens(r, lines, k);
    }
  }

  lemma SanitizedStart(r: Rules, lines: seq<string>)
    ensures SanitizedUpTo(r, lines, 0, [])
  {
    assert lines[..0] == [];
  }

  lemma SanitizedEnd(r: Rules, lines: seq<string>, output: seq<string>)
    requires SanitizedUpTo(r, lines, |lines|, output)
    ensures output == Sanitized(r, lines)
  {
    assert lines[..|lines|] == lines;
  }

  /** `sanitize_text` on lines: the scan, the dictionary, and the loop that jumps over private keys. */
  method SanitizeText(r: Rules, lines: seq<string>) returns (output: seq<string>, findings: seq<Finding>)
    ensures output == Sanitized(r, lines) && findings == Findings(r, lines)
    ensures output == Redacted(r, lines, |lines|)
    ensures forall f :: f in findings <==> Expected(r, lines, f)
  {
    findings := ScanText(r, lines);
    var highByStart := HighByStart(findings);
    SanitizedStart(r, lines);
    output := SanitizeLines(r, lines, highByStart);
    SanitizedEnd(r, lines, output);
    assert lines[..|lines|] == lines;
    SanitizedIs(r, lines, |lines|);
  }

  method SanitizeLines(r: Rules, lines: seq<string>, highByStart: map<nat, Finding>) returns (output: seq<string>)
    requires highByStart == HighFindings(r, lines) && SanitizedUpTo(r, lines, 0, [])
    ensures SanitizedUpTo(r, lines, |lines|, output)
  {
    output := [];
    var done := 0;
    while done < |lines|
      invariant done <= |lines| && SanitizedUpTo(r, lines, done, output)
    {
      Advance(r, lines, highByStart, done, output);
      var number := done + 1;
      if number !in highByStart {
        output := output + [lines[done]];
        done := done + 1;
      } else {
        output := output + [Marker(highByStart[number].rule)];
        done := highByStart[number].end;
      }
    }
  }
}
