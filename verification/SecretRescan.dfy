// Scanning the sanitized text of alred/secret_scan.py once more: exactly when nothing
// of high confidence is found again.
module SecretRescan {
  import opened SecretRules
  import opened SecretScan

  /** What the expressions of the source do with a marker line, and that a delimiter is one word. */
  ghost predicate RulesFit(r: Rules) {
    && (forall id :: id in Catalog ==>
         var m := Marker(id); !r.keyBegin(m) && r.common(m).None? && r.bannerDelimiter(m).None? && r.stripped(m) == m)
    && (forall line :: r.common(line).Some? ==> r.common(line).value in Catalog)
    && (forall line :: r.direct(line).Some? ==> r.direct(line).value in Catalog)
    && (forall line :: r.bannerDelimiter(line).Some? ==> ' ' !in r.bannerDelimiter(line).value)
  }

  /** Fewer parents can only make the context rule say less. */
  lemma ContextMonotone(r: Rules, line: string, more: seq<Parent>, fewer: seq<Parent>)
    requires Increasing(more) && Increasing(fewer) && forall p :: p in fewer ==> p in more
    requires ContextRule(r, line, more).None?
    ensures ContextRule(r, line, fewer).None?
  {
    if exists i :: 0 <= i < |fewer| - 1 && r.bareKey(fewer[i].text) {
      var i :| 0 <= i < |fewer| - 1 && r.bareKey(fewer[i].text);
      assert fewer[i] in more && fewer[i + 1] in more;
      var j :| 0 <= j < |more| && more[j] == fewer[i];
      var k :| 0 <= k < |more| && more[k] == fewer[i + 1];
      assert j < k;
    }
  }

  // ------------------------------------------------------------- scanning the result

  /** Without NX-OS rules no line ever enters the stack. */
  lemma {:induction false} StackEmpty(r: Rules, lines: seq<string>)
    ensures !r.nxos ==> After(r, lines).parents == [] && Due(r, lines) == None
  {
    if lines != [] {
      StackEmpty(r, lines[..|lines| - 1]);
    }
  }

  /** A marker is inert in every state of the second scan. */
  lemma MarkerLine(r: Rules, out: seq<string>, id: string)
    requires RulesFit(r) && id in Catalog && After(r, out).keyStart.None?
    requires After(r, out).banner.Some? ==> ' ' !in After(r, out).banner.value
    ensures After(r, out + [Marker(id)]) == After(r, out)
    ensures Judge(r, After(r, out), Marker(id)).Low? || Judge(r, After(r, out), Marker(id)).Clean?
  {
    var m := Marker(id);
    assert (out + [m])[..|out|] == out;
    assert m[1] == ' ' && m[0] == '!';
  }

  lemma {:induction false} BannerIsOneWord(r: Rules, lines: seq<string>)
    requires RulesFit(r)
    ensures After(r, lines).banner.Some? ==> ' ' !in After(r, lines).banner.value
  {
    if lines != [] {
      BannerIsOneWord(r, lines[..|lines| - 1]);
    }
  }

  lemma HighIsInCatalog(r: Rules, s: State, line: string)
    requires RulesFit(r) && Judge(r, s, line).High?
    ensures Judge(r, s, line).rule in Catalog
  {}

  // ----------------------------------------------- exactly when the rescan is clean

  /** The parents among the lines that were left in place: a redacted line neither pops nor enters. */
  function KeptStack(r: Rules, lines: seq<string>): seq<Parent> {
    if lines == [] then []
    else
      var n := |lines| - 1;
      var s, line, kept := After(r, lines[..n]), lines[n], KeptStack(r, lines[..n]);
      if Touches(r, s, line) && !Judge(r, s, line).High?
      then Pop(kept, r.indent(line)) + [Parent(r.indent(line), r.stripped(line))]
      else kept
  }

  /** A line that was left in place, and that the context rule matches under the parents left in place. */
  predicate Uncovered(r: Rules, lines: seq<string>, i: int) {
    && 0 <= i < |lines|
    && Touches(r, After(r, lines[..i]), lines[i]) && !VerdictAt(r, lines, i).High?
    && ContextRule(r, lines[i], Pop(KeptStack(r, lines[..i]), r.indent(lines[i]))).Some?
  }

  ghost predicate NoneUncovered(r: Rules, lines: seq<string>) {
    forall i {:trigger Uncovered(r, lines, i)} :: 0 <= i < |lines| ==> !Uncovered(r, lines, i)
  }

  ghost predicate NoneHigh(findings: seq<Finding>) {
    forall f :: f in findings ==> !f.high
  }

  /** The state of the second scan, from the first scan alone. */
  function SecondState(r: Rules, lines: seq<string>): State {
    State(KeptStack(r, lines), After(r, lines).banner, None)
  }

  lemma {:induction false} KeptStackEmpty(r: Rules, lines: seq<string>)
    ensures !r.nxos ==> KeptStack(r, lines) == []
  {
    if lines != [] {
      KeptStackEmpty(r, lines[..|lines| - 1]);
    }
  }

  /** The second scan of a line left in place: its state, and when it is flagged now. */
  lemma KeptLineAgain(r: Rules, lines: seq<string>, number: nat)
    requires lines != [] && (VerdictAt(r, lines, |lines| - 1).Low? || VerdictAt(r, lines, |lines| - 1).Clean?)
    ensures Next(r, SecondState(r, lines[..|lines| - 1]), lines[|lines| - 1], number) == SecondState(r, lines)
    ensures var v := Judge(r, SecondState(r, lines[..|lines| - 1]), lines[|lines| - 1]);
      !v.InKeyBlock? && (v.High? <==> Uncovered(r, lines, |lines| - 1))
  {
    KeptStackEmpty(r, lines[..|lines| - 1]);
    KeptStackEmpty(r, lines);
  }

  lemma RedactedState(r: Rules, lines: seq<string>)
    requires lines != [] && (VerdictAt(r, lines, |lines| - 1).KeyBegins? || VerdictAt(r, lines, |lines| - 1).High?)
    ensures SecondState(r, lines) == SecondState(r, lines[..|lines| - 1])
  {}

  lemma RedactedLineAgain(r: Rules, lines: seq<string>, out: seq<string>, id: string)
    requires RulesFit(r) && lines != [] && After(r, out) == SecondState(r, lines[..|lines| - 1])
    requires id in Catalog && (VerdictAt(r, lines, |lines| - 1).KeyBegins? || VerdictAt(r, lines, |lines| - 1).High?)
    ensures After(r, out + [Marker(id)]) == SecondState(r, lines)
    ensures !Judge(r, After(r, out), Marker(id)).High? && !Judge(r, After(r, out), Marker(id)).InKeyBlock?
  {
    BannerIsOneWord(r, lines[..|lines| - 1]);
    RedactedState(r, lines);
    MarkerLine(r, out, id);
  }

  /** What one more line of the second scan adds to its findings. */
  lemma OneMoreFinding(r: Rules, out: seq<string>, line: string)
    requires !Judge(r, After(r, out), line).InKeyBlock?
    ensures NoneHigh(Found(r, out + [line])) <==> NoneHigh(Found(r, out)) && !Judge(r, After(r, out), line).High?
  {
    var before, added := Found(r, out), LineFinding(r, After(r, out), line, |out| + 1);
    OneMoreLine(r, out, line);
    assert forall f :: f in before + added <==> f in before || f in added;
    if added != [] {
      assert added[0] in before + added;
    }
  }

  ghost predicate SecondFits(r: Rules, lines: seq<string>, out: seq<string>) {
    After(r, out) == SecondState(r, lines) && (NoneHigh(Found(r, out)) <==> NoneUncovered(r, lines))
  }

  lemma SecondKept(r: Rules, lines: seq<string>, out: seq<string>)
    requires lines != [] && SecondFits(r, lines[..|lines| - 1], out)
    requires VerdictAt(r, lines, |lines| - 1).Low? || VerdictAt(r, lines, |lines| - 1).Clean?
    ensures SecondFits(r, lines, out + [lines[|lines| - 1]])
  {
    var line := lines[|lines| - 1];
    KeptLineAgain(r, lines, |out| + 1);
    OneMoreLine(r, out, line);
    OneMoreFinding(r, out, line);
    UncoveredPrefix(r, lines);
  }

  lemma RedactedIsNotUncovered(r: Rules, lines: seq<string>)
    requires lines != []
    requires var v := VerdictAt(r, lines, |lines| - 1); v.InKeyBlock? || v.KeyBegins? || v.High?
    ensures !Uncovered(r, lines, |lines| - 1)
  {}

  lemma SecondMarker(r: Rules, lines: seq<string>, out: seq<string>, id: string)
    requires RulesFit(r) && lines != [] && SecondFits(r, lines[..|lines| - 1], out) && id in Catalog
    requires VerdictAt(r, lines, |lines| - 1).KeyBegins? || VerdictAt(r, lines, |lines| - 1).High?
    ensures SecondFits(r, lines, out + [Marker(id)])
  {
    RedactedLineAgain(r, lines, out, id);
    OneMoreFinding(r, out, Marker(id));
    RedactedIsNotUncovered(r, lines);
    UncoveredPrefix(r, lines);
  }

  lemma SecondInKey(r: Rules, lines: seq<string>, out: seq<string>)
    requires lines != [] && SecondFits(r, lines[..|lines| - 1], out) && VerdictAt(r, lines, |lines| - 1).InKeyBlock?
    ensures SecondFits(r, lines, out)
  {
    RedactedIsNotUncovered(r, lines);
    UncoveredPrefix(r, lines);
  }

  lemma UncoveredPrefix(r: Rules, lines: seq<string>)
    requires lines != []
    ensures NoneUncovered(r, lines) <==>
      NoneUncovered(r, lines[..|lines| - 1]) && !Uncovered(r, lines, |lines| - 1)
  {
    var n := |lines| - 1;
    forall i | 0 <= i < n ensures Uncovered(r, lines, i) <==> Uncovered(r, lines[..n], i) {
      assert lines[..n][..i] == lines[..i];
    }
  }

  /** The whole second scan, whatever the lines. */
  lemma {:induction false} SecondScan(r: Rules, lines: seq<string>)
    requires RulesFit(r)
    ensures SecondFits(r, lines, Sanitized(r, lines))
  {
    if lines != [] {
      var n := |lines| - 1;
      var out := Sanitized(r, lines[..n]);
      SecondScan(r, lines[..n]);
      match VerdictAt(r, lines, n)
      case InKeyBlock =>
        assert out + [] == out;
        SecondInKey(r, lines, out);
      case KeyBegins => SecondMarker(r, lines, out, PrivateKey);
      case High(rule) =>
        HighIsInCatalog(r, After(r, lines[..n]), lines[n]);
        SecondMarker(r, lines, out, rule);
      case _ => SecondKept(r, lines, out);
    }
  }

  /** For every text: the rescan finds nothing of high confidence exactly if no line that was left in place
      comes, by the redaction of others, into a BGP or key context of lines left in place. */
  lemma RescanIsCleanIff(r: Rules, lines: seq<string>)
    requires RulesFit(r)
    ensures (forall f :: f in Findings(r, Sanitized(r, lines)) ==> !f.high) <==> NoneUncovered(r, lines)
  {
    SecondScan(r, lines);
    assert Found(r, Sanitized(r, lines)) + [] == Found(r, Sanitized(r, lines));
  }

  // ------------------------------------------------------ a condition on indentations

  /** A line that may be redacted away together with its place on the stack: the indentation
      the next line on the stack must not exceed, if the last one was redacted and had popped parents. */
  function Due(r: Rules, lines: seq<string>): Option<nat> {
    if lines == [] then None
    else
      var n := |lines| - 1;
      var s, line := After(r, lines[..n]), lines[n];
      if !Touches(r, s, line) then Due(r, lines[..n])
      else if Judge(r, s, line).High? && Pop(s.parents, r.indent(line)) != s.parents then Some(r.indent(line))
      else None
  }

  /** No line that enters the stack right after a redacted one that popped parents is indented deeper. */
  ghost predicate Calm(r: Rules, lines: seq<string>) {
    forall i {:trigger lines[i]} :: 0 <= i < |lines| && Touches(r, After(r, lines[..i]), lines[i]) ==>
      var due := Due(r, lines[..i]); due.Some? ==> r.indent(lines[i]) <= due.value
  }

  lemma CalmPrefix(r: Rules, lines: seq<string>, n: nat)
    requires Calm(r, lines) && n <= |lines|
    ensures Calm(r, lines[..n])
  {
    forall i | 0 <= i < n ensures lines[..n][..i] == lines[..i] && lines[..n][i] == lines[i] {}
  }

  /** How the stack of the second scan relates to that of the first. */
  ghost predicate StackFits(first: seq<Parent>, second: seq<Parent>, due: Option<nat>) {
    && Increasing(first) && Increasing(second)
    && (forall p :: p in second ==> p in first || (due.Some? && p.indent >= due.value))
    && (due.Some? ==> first != [] && first[|first| - 1].indent == due.value)
  }

  /** A line that enters both stacks. */
  lemma KeptLineFits(first: seq<Parent>, second: seq<Parent>, due: Option<nat>, indent: nat)
    requires StackFits(first, second, due) && (due.Some? ==> indent <= due.value)
    ensures forall p :: p in Pop(second, indent) ==> p in Pop(first, indent)
    ensures Increasing(Pop(first, indent)) && Increasing(Pop(second, indent))
  {
    PopIs(first, indent);
    PopIs(second, indent);
  }

  lemma PushFits(first: seq<Parent>, second: seq<Parent>, indent: nat, text: string)
    requires Increasing(first) && Increasing(second) && forall p :: p in second ==> p in first
    requires forall p :: p in first ==> p.indent < indent
    ensures StackFits(first + [Parent(indent, text)], second + [Parent(indent, text)], None)
  {
    forall i | 0 <= i < |first| ensures first[i].indent < indent {
      assert first[i] in first;
    }
    forall i | 0 <= i < |second| ensures second[i].indent < indent {
      assert second[i] in second && second[i] in first;
    }
  }

  /** A redacted line enters the first stack only. */
  lemma RedactedLineFits(first: seq<Parent>, second: seq<Parent>, due: Option<nat>, indent: nat, text: string)
    requires StackFits(first, second, due) && (due.Some? ==> indent <= due.value)
    ensures StackFits(Pop(first, indent) + [Parent(indent, text)], second,
                      if Pop(first, indent) != first then Some(indent) else None)
  {
    PopIs(first, indent);
    var popped := Pop(first, indent);
    forall i | 0 <= i < |popped| ensures popped[i].indent < indent {
      assert popped[i] in popped;
    }
    if due.Some? {
      assert first[|first| - 1] in first && first[|first| - 1] !in popped;
    }
    forall p | p in second
      ensures p in popped + [Parent(indent, text)] || (popped != first && p.indent >= indent)
    {
      if p in first && p.indent < indent {
        assert p in popped;
      }
    }
  }

  /** The stack of the lines left in place, against that of all lines. */
  lemma {:induction false} CalmStacks(r: Rules, lines: seq<string>)
    requires Calm(r, lines)
    ensures StackFits(After(r, lines).parents, KeptStack(r, lines), Due(r, lines))
  {
    if lines != [] {
      var n := |lines| - 1;
      CalmPrefix(r, lines, n);
      CalmStacks(r, lines[..n]);
      CalmLine(r, lines);
    }
  }

  lemma CalmLine(r: Rules, lines: seq<string>)
    requires lines != [] && Calm(r, lines)
    requires var n := |lines| - 1; StackFits(After(r, lines[..n]).parents, KeptStack(r, lines[..n]), Due(r, lines[..n]))
    ensures StackFits(After(r, lines).parents, KeptStack(r, lines), Due(r, lines))
  {
    var n, line := |lines| - 1, lines[|lines| - 1];
    var s, kept, due, indent := After(r, lines[..n]), KeptStack(r, lines[..n]), Due(r, lines[..n]), r.indent(line);
    if Touches(r, s, line) {
      assert lines[n] == line;
      if Judge(r, s, line).High? {
        RedactedLineFits(s.parents, kept, due, indent, r.stripped(line));
      } else {
        KeptLineFits(s.parents, kept, due, indent);
        PopIs(s.parents, indent);
        PushFits(Pop(s.parents, indent), Pop(kept, indent), indent, r.stripped(line));
      }
    } else if !r.nxos {
      StackEmpty(r, lines[..n]);
      StackEmpty(r, lines);
    }
  }

  lemma CalmUncoversNothing(r: Rules, lines: seq<string>, i: nat)
    requires Calm(r, lines) && i < |lines|
    ensures !Uncovered(r, lines, i)
  {
    if Touches(r, After(r, lines[..i]), lines[i]) && !VerdictAt(r, lines, i).High? {
      var s, kept, indent := After(r, lines[..i]), KeptStack(r, lines[..i]), r.indent(lines[i]);
      CalmPrefix(r, lines, i);
      CalmStacks(r, lines[..i]);
      KeptLineFits(s.parents, kept, Due(r, lines[..i]), indent);
      ContextMonotone(r, lines[i], Pop(s.parents, indent), Pop(kept, indent));
    }
  }

  /** It is clean, in particular, when no line right after a redacted one that popped parents is indented deeper ... */
  lemma RescanIsClean(r: Rules, lines: seq<string>)
    requires RulesFit(r) && Calm(r, lines)
    ensures forall f :: f in Findings(r, Sanitized(r, lines)) ==> !f.high
  {
    forall i | 0 <= i < |lines| ensures !Uncovered(r, lines, i) {
      CalmUncoversNothing(r, lines, i);
    }
    RescanIsCleanIff(r, lines);
  }

  /** ... and for text that is not NX-OS in every case. */
  lemma RescanIsCleanForText(r: Rules, lines: seq<string>)
    requires RulesFit(r) && !r.nxos
    ensures forall f :: f in Findings(r, Sanitized(r, lines)) ==> !f.high
  {
    RescanIsClean(r, lines);
  }

  // ------------------------------------------------------ where the promise ends

  /** A line that enters the stack and that no single-line rule flags. */
  ghost predicate Harmless(r: Rules, line: string) {
    && r.nxos && !r.keyBegin(line) && r.bannerDelimiter(line).None? && !Skipped(r, line)
    && !r.policy(line) && r.direct(line).None? && !r.passwordLine(line) && r.common(line).None?
  }

  /** A key chain, a redacted line indented no deeper, and a key string indented deeper than the chain. */
  ghost predicate Uncovering(r: Rules, chain: string, user: string, keyString: string) {
    && RulesFit(r) && Harmless(r, chain) && !r.keyStringLine(chain) && r.keyParent(r.stripped(chain))
    && r.nxos && !r.keyBegin(user) && r.bannerDelimiter(user).None? && !Skipped(r, user)
    && !r.policy(user) && r.direct(user).Some? && !r.keyParent(r.stripped(user))
    && Harmless(r, keyString) && r.keyStringLine(keyString)
    && r.indent(user) <= r.indent(chain) < r.indent(keyString)
  }

  lemma OneMoreDue(r: Rules, lines: seq<string>, line: string)
    requires Touches(r, After(r, lines), line) && Judge(r, After(r, lines), line).High?
    requires Pop(After(r, lines).parents, r.indent(line)) != After(r, lines).parents
    ensures Due(r, lines + [line]) == Some(r.indent(line))
  {
    assert (lines + [line])[..|lines|] == lines;
  }

  /** The stack that holds one line. */
  function Under(r: Rules, line: string): State {
    State([Parent(r.indent(line), r.stripped(line))], None, None)
  }

  lemma UncoveringChain(r: Rules, chain: string, user: string, keyString: string)
    requires Uncovering(r, chain, user, keyString)
    ensures After(r, [chain]) == Under(r, chain) && Sanitized(r, [chain]) == [chain]
  {
    var empty := State([], None, None);
    OneMoreLine(r, [], chain);
    assert [] + [chain] == [chain] && Pop([], r.indent(chain)) == [];
    assert Touches(r, empty, chain);
    assert Judge(r, empty, chain).Low? || Judge(r, empty, chain).Clean?;
    assert Next(r, empty, chain, 1) == Under(r, chain);
  }

  lemma UserPopsChain(r: Rules, chain: string, user: string, keyString: string)
    requires Uncovering(r, chain, user, keyString)
    ensures Touches(r, Under(r, chain), user) && Pop(Under(r, chain).parents, r.indent(user)) == []
    ensures Judge(r, Under(r, chain), user) == High(r.direct(user).value)
    ensures Next(r, Under(r, chain), user, 2) == Under(r, user)
  {
    assert Under(r, chain).parents[..0] == [];
  }

  lemma UncoveringUser(r: Rules, chain: string, user: string, keyString: string)
    requires Uncovering(r, chain, user, keyString)
    ensures After(r, [chain, user]) == Under(r, user)
    ensures Sanitized(r, [chain, user]) == [chain, Marker(r.direct(user).value)]
    ensures Due(r, [chain, user]) == Some(r.indent(user))
  {
    UncoveringChain(r, chain, user, keyString);
    UserPopsChain(r, chain, user, keyString);
    assert [chain] + [user] == [chain, user];
    OneMoreLine(r, [chain], user);
    OneMoreDue(r, [chain], user);
  }

  /** In the first scan the key string has the redacted line for a parent. */
  lemma UncoveringKeyString(r: Rules, chain: string, user: string, keyString: string)
    requires Uncovering(r, chain, user, keyString)
    ensures var s := Under(r, user);
            Touches(r, s, keyString) && (Judge(r, s, keyString).Low? || Judge(r, s, keyString).Clean?)
  {
    var two := Under(r, user).parents;
    assert Pop(two, r.indent(keyString)) == two;
    assert !InKey(r, two);
  }

  lemma UncoveringNotCalm(r: Rules, chain: string, user: string, keyString: string)
    requires Uncovering(r, chain, user, keyString)
    ensures !Calm(r, [chain, user, keyString])
  {
    UncoveringUser(r, chain, user, keyString);
    UncoveringKeyString(r, chain, user, keyString);
    var lines := [chain, user, keyString];
    assert lines[..2] == [chain, user] && lines[2] == keyString;
    assert Touches(r, After(r, lines[..2]), lines[2]);
  }

  lemma UncoveringFirstScan(r: Rules, chain: string, user: string, keyString: string)
    requires Uncovering(r, chain, user, keyString)
    ensures Sanitized(r, [chain, user, keyString]) == [chain, Marker(r.direct(user).value)] + [keyString]
  {
    UncoveringUser(r, chain, user, keyString);
    UncoveringKeyString(r, chain, user, keyString);
    OneMoreLine(r, [chain, user], keyString);
    assert [chain, user] + [keyString] == [chain, user, keyString];
  }

  lemma UncoveringMarker(r: Rules, chain: string, user: string, keyString: string)
    requires Uncovering(r, chain, user, keyString)
    ensures After(r, [chain, Marker(r.direct(user).value)]) == Under(r, chain)
  {
    var id := r.direct(user).value;
    UncoveringChain(r, chain, user, keyString);
    assert [chain] + [Marker(id)] == [chain, Marker(id)];
    MarkerLine(r, [chain], id);
  }

  /** In the second scan the key string has the key chain for a parent. */
  lemma UncoveringSecondScan(r: Rules, chain: string, user: string, keyString: string)
    requires Uncovering(r, chain, user, keyString)
    ensures Judge(r, Under(r, chain), keyString) == High("NXOS_KEY_CHAIN_MATERIAL")
  {
    var one := Under(r, chain).parents;
    assert Pop(one, r.indent(keyString)) == one && one[0] in one;
    assert InKey(r, one);
  }

  /** The marker does not pop the key chain as the redacted line did: the second scan sees the key
      string inside the chain, and finds it. */
  lemma RedactionUncoversParent(r: Rules, chain: string, user: string, keyString: string)
    requires Uncovering(r, chain, user, keyString)
    ensures !Calm(r, [chain, user, keyString])
    ensures Finding("NXOS_KEY_CHAIN_MATERIAL", true, 3, 3) in Findings(r, Sanitized(r, [chain, user, keyString]))
  {
    UncoveringFirstScan(r, chain, user, keyString);
    UncoveringNotCalm(r, chain, user, keyString);
    UncoveringMarker(r, chain, user, keyString);
    UncoveringSecondScan(r, chain, user, keyString);
    var before := [chain, Marker(r.direct(user).value)];
    OneMoreLine(r, before, keyString);
  }

  const Chain := "  key chain k"
  const User := " username u password p"
  const KeyString := "   key-string s"

  function LeadingSpaces(line: string): nat {
    if line != "" && line[0] == ' ' then 1 + LeadingSpaces(line[1..]) else 0
  }

  lemma {:induction false} LeadingSpacesFit(line: string)
    ensures LeadingSpaces(line) <= |line|
    ensures LeadingSpaces(line) < |line| ==> line[LeadingSpaces(line)] != ' '
  {
    if line != "" && line[0] == ' ' {
      LeadingSpacesFit(line[1..]);
    }
  }

  function Strip(line: string): string {
    LeadingSpacesFit(line);
    line[LeadingSpaces(line)..]
  }

  /** Rules that tell these three lines apart by their lengths. */
  const ThreeLines := Rules(
    true, l => false, l => false, l => None, l => None, l => false, l => None, l => Strip(l), l => LeadingSpaces(l),
    l => false, l => if |l| == |User| then Some("NXOS_USERNAME_PASSWORD") else None,
    l => false, p => false, l => |l| == |KeyString|, p => |p| == |Chain| - 2, p => false)

  lemma ThreeLinesFit()
    ensures RulesFit(ThreeLines)
  {
    forall id | id in Catalog ensures ThreeLines.stripped(Marker(id)) == Marker(id) {
      MarkerIsStripped(id);
    }
    assert forall line :: ThreeLines.direct(line).Some? ==> ThreeLines.direct(line).value == "NXOS_USERNAME_PASSWORD";
  }

  lemma MarkerIsStripped(id: string)
    ensures Strip(Marker(id)) == Marker(id)
  {
    assert Marker(id)[0] == '!';
    assert LeadingSpaces(Marker(id)) == 0;
  }

  lemma {:induction false} SpacesAre(line: string, n: nat)
    requires n < |line| && line[n] != ' ' && forall i :: 0 <= i < n ==> line[i] == ' '
    ensures LeadingSpaces(line) == n && |Strip(line)| == |line| - n && Strip(line)[0] == line[n]
  {
    if n > 0 {
      SpacesAre(line[1..], n - 1);
    }
  }

  lemma ChainIs()
    ensures |Chain| == 13 && LeadingSpaces(Chain) == 2 && |Strip(Chain)| == 11 && Strip(Chain)[0] == 'k'
  {
    SpacesAre(Chain, 2);
  }

  lemma UserIs()
    ensures |User| == 22 && LeadingSpaces(User) == 1 && |Strip(User)| == 21 && Strip(User)[0] == 'u'
  {
    SpacesAre(User, 1);
  }

  lemma KeyStringIs()
    ensures |KeyString| == 15 && LeadingSpaces(KeyString) == 3 && |Strip(KeyString)| == 12 && Strip(KeyString)[0] == 'k'
  {
    SpacesAre(KeyString, 3);
  }

  lemma ChainFits()
    ensures Harmless(ThreeLines, Chain) && !ThreeLines.keyStringLine(Chain) && ThreeLines.keyParent(ThreeLines.stripped(Chain))
  {
    ChainIs();
    UserIs();
    KeyStringIs();
  }

  lemma KeyStringFits()
    ensures Harmless(ThreeLines, KeyString) && ThreeLines.keyStringLine(KeyString)
  {
    UserIs();
    KeyStringIs();
  }

  lemma UserFits()
    ensures !Skipped(ThreeLines, User) && ThreeLines.direct(User).Some? && !ThreeLines.keyParent(ThreeLines.stripped(User))
  {
    ChainIs();
    UserIs();
  }

  /** Three lines of a running-config are of this kind. */
  lemma UncoveringExists()
    ensures Uncovering(ThreeLines, Chain, User, KeyString)
  {
    ThreeLinesFit();
    ChainFits();
    KeyStringFits();
    UserFits();
    assert LeadingSpaces(User) <= LeadingSpaces(Chain) < LeadingSpaces(KeyString) by {
      ChainIs();
      UserIs();
      KeyStringIs();
    }
  }
}
