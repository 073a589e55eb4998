// alred/lab_transform.py, `_build_ntp_replacements`: which NTP server of the
// source each lab server takes its options from.
module LabNtp {

  datatype Option<+T> = None | Some(value: T)

  type Settings = map<string, string>

  /** An NTP line of the source; a redacted one has no address. */
  datatype Entry = Entry(line: string, address: Option<string>, options: Settings, unknown: bool)

  /** A lab server; `source` is its `source_address`. */
  datatype Server = Server(address: string, inherit: bool, source: Option<string>, own: Settings)

  datatype Action = Remove | Preserve | Replace | Inject

  datatype Outcome = Lines(lines: seq<string>) | NoServers | Cardinality | IncompleteSource

  function Usable(entries: seq<Entry>): (r: seq<Entry>)
    ensures forall e :: e in r ==> e.address.Some?
  {
    if entries == [] then []
    else Usable(entries[..|entries| - 1]) + if entries[|entries| - 1].address.Some? then [entries[|entries| - 1]] else []
  }

  function KeptLines(entries: seq<Entry>): seq<string> {
    if entries == [] then []
    else KeptLines(entries[..|entries| - 1]) + if entries[|entries| - 1].line != "" then [entries[|entries| - 1].line] else []
  }

  ghost predicate Increasing(ks: seq<nat>) {
    forall i, j :: 0 <= i < j < |ks| ==> ks[i] < ks[j]
  }

  /** The entries that have an address, in order. */
  ghost predicate UsableAre(entries: seq<Entry>, usable: seq<Entry>) {
    exists ks: seq<nat> ::
      && Increasing(ks) && (forall k: nat :: k in ks <==> k < |entries| && entries[k].address.Some?)
      && |usable| == |ks| && forall i :: 0 <= i < |ks| ==> ks[i] < |entries| && usable[i] == entries[ks[i]]
  }

  /** The lines of the entries that have one, in order. */
  ghost predicate LinesAre(entries: seq<Entry>, lines: seq<string>) {
    exists ks: seq<nat> ::
      && Increasing(ks) && (forall k: nat :: k in ks <==> k < |entries| && entries[k].line != "")
      && |lines| == |ks| && forall i :: 0 <= i < |ks| ==> ks[i] < |entries| && lines[i] == entries[ks[i]].line
  }

  /** The indexes of the entries that have an address, or a line. */
  ghost function Having(entries: seq<Entry>, has: Entry -> bool): seq<nat> {
    if entries == [] then []
    else Having(entries[..|entries| - 1], has) + if has(entries[|entries| - 1]) then [|entries| - 1] else []
  }

  lemma {:induction false} HavingIncreases(entries: seq<Entry>, has: Entry -> bool)
    ensures Increasing(Having(entries, has)) && forall k :: k in Having(entries, has) ==> k < |entries|
  {
    if entries != [] {
      HavingIncreases(entries[..|entries| - 1], has);
      var before := Having(entries[..|entries| - 1], has);
      assert forall i :: 0 <= i < |before| ==> before[i] in before;
    }
  }

  lemma {:induction false} HavingHas(entries: seq<Entry>, has: Entry -> bool, k: nat)
    requires k < |entries|
    ensures k in Having(entries, has) <==> has(entries[k])
  {
    var n := |entries| - 1;
    if k < n {
      HavingHas(entries[..n], has, k);
    } else {
      HavingIncreases(entries[..n], has);
    }
  }

  lemma HavingIs(entries: seq<Entry>, has: Entry -> bool)
    ensures Increasing(Having(entries, has))
    ensures forall k: nat :: k in Having(entries, has) <==> k < |entries| && has(entries[k])
  {
    HavingIncreases(entries, has);
    forall k: nat | k < |entries| ensures k in Having(entries, has) <==> has(entries[k]) {
      HavingHas(entries, has, k);
    }
  }

  lemma UsableIs(entries: seq<Entry>)
    ensures UsableAre(entries, Usable(entries))
  {
    var has := (e: Entry) => e.address.Some?;
    HavingIs(entries, has);
    UsableAt(entries, has);
  }

  lemma {:induction false} UsableAt(entries: seq<Entry>, has: Entry -> bool)
    requires forall e :: has(e) <==> e.address.Some?
    ensures var ks := Having(entries, has);
      |Usable(entries)| == |ks| && forall i :: 0 <= i < |ks| ==> ks[i] < |entries| && Usable(entries)[i] == entries[ks[i]]
  {
    if entries != [] {
      UsableAt(entries[..|entries| - 1], has);
    }
  }

  lemma KeptLinesAre(entries: seq<Entry>)
    ensures LinesAre(entries, KeptLines(entries))
  {
    var has := (e: Entry) => e.line != "";
    HavingIs(entries, has);
    KeptLinesAt(entries, has);
  }

  lemma {:induction false} KeptLinesAt(entries: seq<Entry>, has: Entry -> bool)
    requires forall e :: has(e) <==> e.line != ""
    ensures var ks := Having(entries, has);
      |KeptLines(entries)| == |ks| && forall i :: 0 <= i < |ks| ==> ks[i] < |entries| && KeptLines(entries)[i] == entries[ks[i]].line
  {
    if entries != [] {
      KeptLinesAt(entries[..|entries| - 1], has);
    }
  }

  predicate At(usable: seq<Entry>, e: nat, address: string) {
    e < |usable| && usable[e].address == Some(address)
  }

  /** The address occurs at exactly one usable entry. */
  ghost predicate Once(usable: seq<Entry>, address: string) {
    exists e: nat :: At(usable, e, address) && forall f: nat :: At(usable, f, address) ==> f == e
  }

  /** The first `n` servers name source servers that exist once, and no two the same. */
  ghost predicate SourcesClear(servers: seq<Server>, usable: seq<Entry>, n: nat)
    requires n <= |servers|
  {
    && (forall i {:trigger servers[i].source} :: 0 <= i < n && servers[i].source.Some? ==> Once(usable, servers[i].source.value))
    && (forall i, j :: 0 <= i < j < n && servers[i].source.Some? ==> servers[i].source != servers[j].source)
  }

  ghost predicate NobodyInherits(servers: seq<Server>) {
    forall s :: s in servers ==> !s.inherit
  }

  /** When the partners are chosen: what each partner means, and that nobody could have had a better one. */
  ghost predicate Paired(servers: seq<Server>, usable: seq<Entry>, pair: map<nat, nat>) {
    && OneToOne(servers, usable, pair)
    && (forall i :: 0 <= i < |servers| && servers[i].source.Some? ==> i in pair && At(usable, pair[i], servers[i].source.value))
    && InOrder(servers, pair)
    && Earliest(servers, usable, pair)
  }

  ghost predicate OneToOne(servers: seq<Server>, usable: seq<Entry>, pair: map<nat, nat>) {
    && (forall i :: i in pair ==> i < |servers| && pair[i] < |usable|)
    && (forall i, j :: i in pair && j in pair && pair[i] == pair[j] ==> i == j)
  }

  ghost predicate InOrder(servers: seq<Server>, pair: map<nat, nat>) {
    forall i, j :: 0 <= i < j && j in pair && j < |servers| && servers[i].source.None? && servers[j].source.None? ==>
      i in pair && pair[i] < pair[j]
  }

  /** No entry is left over before one that a server of the rest has. */
  ghost predicate Earliest(servers: seq<Server>, usable: seq<Entry>, pair: map<nat, nat>) {
    forall i, e :: 0 <= i < |servers| && servers[i].source.None? && 0 <= e < |usable| && e !in pair.Values ==>
      i in pair && pair[i] < e
  }

  /** The lines of paired servers: own settings over those of the partner. */
  ghost predicate Rendered(render: (string, Settings) -> string, servers: seq<Server>, usable: seq<Entry>, pair: map<nat, nat>,
                           lines: seq<string>)
  {
    && |lines| == |servers|
    && forall i :: 0 <= i < |servers| ==>
         && (servers[i].inherit ==> i in pair && pair[i] < |usable|)
         && lines[i] == render(servers[i].address,
                               if servers[i].inherit then usable[pair[i]].options + servers[i].own else servers[i].own)
  }

  /** Indexes below `n` that are not in `used`, ascending: a list comprehension of the source. */
  function Remaining(n: nat, used: set<nat>): seq<nat> {
    if n == 0 then [] else Remaining(n - 1, used) + if n - 1 in used then [] else [n - 1]
  }

  lemma {:induction false} RemainingIs(n: nat, used: set<nat>)
    ensures forall x :: x in Remaining(n, used) <==> 0 <= x < n && x !in used
    ensures forall i, j :: 0 <= i < j < |Remaining(n, used)| ==> Remaining(n, used)[i] < Remaining(n, used)[j]
  {
    if n > 0 {
      RemainingIs(n - 1, used);
      var before := Remaining(n - 1, used);
      forall i | 0 <= i < |before| ensures before[i] < n - 1 {
        assert before[i] in before;
      }
    }
  }

  lemma {:induction false} RemainingCount(n: nat, used: set<nat>)
    requires forall x :: x in used ==> x < n
    ensures |Remaining(n, used)| + |used| == n
  {
    if n > 0 {
      if n - 1 in used {
        RemainingCount(n - 1, used - {n - 1});
        RemainingSame(n - 1, used, used - {n - 1});
      } else {
        RemainingCount(n - 1, used);
      }
    } else {
      assert used == {};
    }
  }

  lemma {:induction false} RemainingSame(n: nat, a: set<nat>, b: set<nat>)
    requires forall x :: 0 <= x < n ==> (x in a <==> x in b)
    ensures Remaining(n, a) == Remaining(n, b)
  {
    if n > 0 {
      RemainingSame(n - 1, a, b);
    }
  }

  /** Servers that name a source address, paired one after the other. None stands for a cardinality error. */
  method PairSources(servers: seq<Server>, usable: seq<Entry>) returns (r: Option<map<nat, nat>>)
    ensures r.Some? <==> SourcesClear(servers, usable, |servers|)
    ensures r.Some? ==> SourcePairs(servers, usable, |servers|, r.value)
  {
    var pair: map<nat, nat> := map[];
    for i := 0 to |servers|
      invariant SourcesClear(servers, usable, i) && SourcePairs(servers, usable, i, pair)
    {
      if servers[i].source.Some? {
        var address := servers[i].source.value;
        var matches := set e: nat | e < |usable| && At(usable, e, address) && e !in pair.Values;
        if |matches| != 1 {
          if SourcesClear(servers, usable, |servers|) {
            ClearMatches(servers, usable, i, pair, matches);
          }
          return None;
        }
        var e: nat :| e in matches;
        OneMoreClear(servers, usable, i, pair, matches, e);
        pair := pair[i := e];
      }
    }
    r := Some(pair);
  }

  /** Exactly the servers below `n` that name a source are paired, each with an entry of that address. */
  ghost predicate SourcePairs(servers: seq<Server>, usable: seq<Entry>, n: nat, pair: map<nat, nat>) {
    && n <= |servers|
    && (forall i {:trigger i in pair} :: i in pair <==> 0 <= i < n && servers[i].source.Some?)
    && (forall i {:trigger pair[i]} :: i in pair ==> At(usable, pair[i], servers[i].source.value))
    && (forall i, j :: i in pair && j in pair && pair[i] == pair[j] ==> i == j)
  }

  lemma SingletonSet(s: set<nat>, e: nat)
    requires |s| == 1 && e in s
    ensures s == {e}
  {
    assert |s - {e}| == 0;
  }

  /** With clear sources, a server finds exactly one entry that is not taken. */
  lemma ClearMatches(servers: seq<Server>, usable: seq<Entry>, i: nat, pair: map<nat, nat>, matches: set<nat>)
    requires i < |servers| && servers[i].source.Some? && SourcePairs(servers, usable, i, pair)
    requires matches == set e: nat | e < |usable| && At(usable, e, servers[i].source.value) && e !in pair.Values
    requires SourcesClear(servers, usable, |servers|)
    ensures |matches| == 1
  {
    var address := servers[i].source.value;
    assert Once(usable, address);
    var e: nat :| At(usable, e, address) && forall f: nat :: At(usable, f, address) ==> f == e;
    forall k | k in pair ensures pair[k] != e {
      assert servers[k].source != servers[i].source;
      assert At(usable, pair[k], servers[k].source.value);
    }
    assert matches == {e};
  }

  lemma Unique(usable: seq<Entry>, address: string, e: nat, f: nat)
    requires Once(usable, address) && At(usable, e, address) && At(usable, f, address)
    ensures e == f
  {}

  lemma OneMoreClear(servers: seq<Server>, usable: seq<Entry>, i: nat, pair: map<nat, nat>, matches: set<nat>, e: nat)
    requires i < |servers| && servers[i].source.Some?
    requires SourcesClear(servers, usable, i) && SourcePairs(servers, usable, i, pair)
    requires matches == set e: nat | e < |usable| && At(usable, e, servers[i].source.value) && e !in pair.Values
    requires |matches| == 1 && e in matches
    ensures SourcesClear(servers, usable, i + 1) && SourcePairs(servers, usable, i + 1, pair[i := e])
  {
    var address := servers[i].source.value;
    SingletonSet(matches, e);
    forall k | k in pair ensures servers[k].source.value != address && At(usable, pair[k], servers[k].source.value) {
      assert pair[k] in pair.Values;
      assert Once(usable, servers[k].source.value);
      if servers[k].source.value == address {
        Unique(usable, address, e, pair[k]);
      }
    }
    forall f: nat | At(usable, f, address) ensures f == e {
      assert forall k :: k in pair ==> pair[k] != f;
      assert f in matches;
    }
    assert Once(usable, address);
    forall k | 0 <= k < i && servers[k].source.Some? ensures servers[k].source != servers[i].source {
      assert k in pair;
    }
  }

  /** The other servers, paired in order with the entries that are left. */
  method PairTheRest(servers: seq<Server>, usable: seq<Entry>, sources: map<nat, nat>) returns (pair: map<nat, nat>)
    requires SourcePairs(servers, usable, |servers|, sources)
    ensures Paired(servers, usable, pair)
    ensures forall i :: i in sources ==> i in pair && pair[i] == sources[i]
  {
    var entries := Remaining(|usable|, sources.Values);
    var rest := Remaining(|servers|, sources.Keys);
    pair := sources;
    var k := 0;
    while k < |rest| && k < |entries|
      invariant 0 <= k && RestPairs(servers, usable, sources, entries, rest, k, pair)
    {
      OneMorePair(servers, usable, sources, entries, rest, k, pair);
      pair := pair[rest[k] := entries[k]];
      k := k + 1;
    }
    RestIsPaired(servers, usable, sources, entries, rest, k, pair);
  }

  /** After pairing `k` of the rest with `k` entries, until one side runs out. */
  ghost predicate RestPairs(servers: seq<Server>, usable: seq<Entry>, sources: map<nat, nat>, entries: seq<nat>, rest: seq<nat>,
                            k: nat, pair: map<nat, nat>)
  {
    && SourcePairs(servers, usable, |servers|, sources)
    && entries == Remaining(|usable|, sources.Values) && rest == Remaining(|servers|, sources.Keys)
    && k <= |rest| && k <= |entries|
    && (forall i {:trigger i in pair} :: i in pair <==> i in sources || AmongFirst(rest, k, i))
    && (forall i {:trigger i in sources} :: i in sources ==> i in pair && pair[i] == sources[i])
    && (forall j {:trigger rest[j]} :: 0 <= j < k ==> rest[j] in pair && pair[rest[j]] == entries[j])
  }

  ghost predicate AmongFirst(rest: seq<nat>, k: nat, i: nat) {
    exists j :: 0 <= j < k && j < |rest| && rest[j] == i
  }

  lemma OneMoreAmong(rest: seq<nat>, k: nat, i: nat)
    requires k < |rest|
    ensures AmongFirst(rest, k + 1, i) <==> AmongFirst(rest, k, i) || i == rest[k]
  {}

  lemma OneMorePair(servers: seq<Server>, usable: seq<Entry>, sources: map<nat, nat>, entries: seq<nat>, rest: seq<nat>, k: nat,
                    pair: map<nat, nat>)
    requires RestPairs(servers, usable, sources, entries, rest, k, pair) && k < |rest| && k < |entries|
    ensures RestPairs(servers, usable, sources, entries, rest, k + 1, pair[rest[k] := entries[k]])
  {
    RemainingIs(|servers|, sources.Keys);
    assert rest[k] in rest && rest[k] !in sources;
    var more := pair[rest[k] := entries[k]];
    forall j | 0 <= j < k + 1 ensures rest[j] in more && more[rest[j]] == entries[j] {
      assert j < k ==> rest[j] < rest[k];
    }
    forall i: nat ensures i in more <==> i in sources || AmongFirst(rest, k + 1, i) {
      OneMoreAmong(rest, k, i);
    }
  }

  /** An entry of the pairing: a source pair, or the j-th of the rest. */
  lemma PairIs(servers: seq<Server>, usable: seq<Entry>, sources: map<nat, nat>, entries: seq<nat>, rest: seq<nat>, k: nat,
               pair: map<nat, nat>, i: nat) returns (j: nat)
    requires RestPairs(servers, usable, sources, entries, rest, k, pair) && i in pair
    ensures i < |servers| && pair[i] < |usable|
    ensures servers[i].source.Some? ==> i in sources && pair[i] == sources[i] && pair[i] in sources.Values
    ensures servers[i].source.None? ==> j < k && rest[j] == i && pair[i] == entries[j] && pair[i] !in sources.Values
  {
    RemainingIs(|usable|, sources.Values);
    RemainingIs(|servers|, sources.Keys);
    j := 0;
    if i in sources {
      assert At(usable, sources[i], servers[i].source.value);
    } else {
      assert AmongFirst(rest, k, i);
      j :| 0 <= j < k && rest[j] == i;
      assert i in rest && entries[j] in entries;
    }
  }

  lemma RestInjective(servers: seq<Server>, usable: seq<Entry>, sources: map<nat, nat>, entries: seq<nat>, rest: seq<nat>, k: nat,
                      pair: map<nat, nat>, a: nat, b: nat)
    requires RestPairs(servers, usable, sources, entries, rest, k, pair) && a in pair && b in pair && pair[a] == pair[b]
    ensures a == b
  {
    var i := PairIs(servers, usable, sources, entries, rest, k, pair, a);
    var j := PairIs(servers, usable, sources, entries, rest, k, pair, b);
    RemainingIs(|usable|, sources.Values);
    if servers[a].source.None? && servers[b].source.None? {
      assert entries[i] == entries[j];
    }
  }

  lemma RestInOrder(servers: seq<Server>, usable: seq<Entry>, sources: map<nat, nat>, entries: seq<nat>, rest: seq<nat>, k: nat,
                    pair: map<nat, nat>, a: nat, b: nat)
    requires RestPairs(servers, usable, sources, entries, rest, k, pair)
    requires a < b < |servers| && b in pair && servers[a].source.None? && servers[b].source.None?
    ensures a in pair && pair[a] < pair[b]
  {
    RemainingIs(|usable|, sources.Values);
    RemainingIs(|servers|, sources.Keys);
    var j := PairIs(servers, usable, sources, entries, rest, k, pair, b);
    assert a in rest;
    var i :| 0 <= i < |rest| && rest[i] == a;
    assert i < j;
    assert rest[i] in pair;
  }

  /** When one side has run out: an entry left over means every server of the rest has an earlier one. */
  lemma RestEarliest(servers: seq<Server>, usable: seq<Entry>, sources: map<nat, nat>, entries: seq<nat>, rest: seq<nat>, k: nat,
                     pair: map<nat, nat>, a: nat, e: nat)
    requires RestPairs(servers, usable, sources, entries, rest, k, pair) && (k == |rest| || k == |entries|)
    requires a < |servers| && servers[a].source.None? && e < |usable| && e !in pair.Values
    ensures a in pair && pair[a] < e
  {
    RemainingIs(|usable|, sources.Values);
    RemainingIs(|servers|, sources.Keys);
    forall i | i in sources ensures sources[i] != e {
      assert pair[i] in pair.Values;
    }
    forall j | 0 <= j < k ensures entries[j] != e {
      assert rest[j] in pair && pair[rest[j]] in pair.Values;
    }
    assert e in entries && a in rest;
    var i :| 0 <= i < |rest| && rest[i] == a;
    assert i < k && rest[i] in pair;
    var j := PairIs(servers, usable, sources, entries, rest, k, pair, a);
  }

  lemma RestOneToOne(servers: seq<Server>, usable: seq<Entry>, sources: map<nat, nat>, entries: seq<nat>, rest: seq<nat>, k: nat,
                     pair: map<nat, nat>)
    requires RestPairs(servers, usable, sources, entries, rest, k, pair)
    ensures OneToOne(servers, usable, pair)
  {
    forall i: nat | i in pair ensures i < |servers| && pair[i] < |usable| {
      var j := PairIs(servers, usable, sources, entries, rest, k, pair, i);
    }
    forall a: nat, b: nat | a in pair && b in pair && pair[a] == pair[b] ensures a == b {
      RestInjective(servers, usable, sources, entries, rest, k, pair, a, b);
    }
  }

  lemma RestAllInOrder(servers: seq<Server>, usable: seq<Entry>, sources: map<nat, nat>, entries: seq<nat>, rest: seq<nat>, k: nat,
                       pair: map<nat, nat>)
    requires RestPairs(servers, usable, sources, entries, rest, k, pair)
    ensures InOrder(servers, pair)
  {
    forall a: nat, b: nat | a < b && b in pair && b < |servers| && servers[a].source.None? && servers[b].source.None?
      ensures a in pair && pair[a] < pair[b]
    {
      RestInOrder(servers, usable, sources, entries, rest, k, pair, a, b);
    }
  }

  lemma RestIsPaired(servers: seq<Server>, usable: seq<Entry>, sources: map<nat, nat>, entries: seq<nat>, rest: seq<nat>, k: nat,
                     pair: map<nat, nat>)
    requires RestPairs(servers, usable, sources, entries, rest, k, pair) && (k == |rest| || k == |entries|)
    ensures Paired(servers, usable, pair)
  {
    RestOneToOne(servers, usable, sources, entries, rest, k, pair);
    RestAllInOrder(servers, usable, sources, entries, rest, k, pair);
    forall a: nat, e: nat | a < |servers| && servers[a].source.None? && e < |usable| && e !in pair.Values
      ensures a in pair && pair[a] < e
    {
      RestEarliest(servers, usable, sources, entries, rest, k, pair, a, e);
    }
  }

  lemma {:induction false} ValuesCount(pair: map<nat, nat>)
    requires forall i, j :: i in pair && j in pair && pair[i] == pair[j] ==> i == j
    ensures |pair.Values| == |pair.Keys|
    decreases |pair|
  {
    if pair.Keys != {} {
      var k: nat :| k in pair;
      var less := pair - {k};
      assert less.Keys == pair.Keys - {k};
      assert less.Values == pair.Values - {pair[k]} by {
        forall v ensures v in less.Values <==> v in pair.Values - {pair[k]} {
          if v in pair.Values - {pair[k]} {
            var i :| i in pair && pair[i] == v;
            assert i in less && less[i] == v;
          }
        }
      }
      ValuesCount(less);
    } else {
      assert pair.Values == {};
    }
  }

  /** The count check of the source compares the lists without the source pairs; it comes to comparing the whole lists. */
  lemma CountsCompare(servers: seq<Server>, usable: seq<Entry>, sources: map<nat, nat>)
    requires SourcePairs(servers, usable, |servers|, sources)
    ensures |Remaining(|servers|, sources.Keys)| - |Remaining(|usable|, sources.Values)| == |servers| - |usable|
  {
    forall v | v in sources.Values ensures v < |usable| {
      var i :| i in sources && sources[i] == v;
      assert At(usable, sources[i], servers[i].source.value);
    }
    ValuesCount(sources);
    RemainingCount(|servers|, sources.Keys);
    RemainingCount(|usable|, sources.Values);
  }

  /** A server that must inherit but has no partner. */
  ghost predicate Stranded(servers: seq<Server>, pair: map<nat, nat>, n: nat)
    requires n <= |servers|
  {
    exists i :: 0 <= i < n && servers[i].inherit && i !in pair
  }

  ghost predicate TooMany(action: Action, servers: seq<Server>, usable: seq<Entry>) {
    action == Replace && |servers| > |usable| && !(usable == [] && NobodyInherits(servers))
  }

  method Render(render: (string, Settings) -> string, servers: seq<Server>, usable: seq<Entry>, pair: map<nat, nat>)
    returns (lines: Option<seq<string>>)
    requires Paired(servers, usable, pair)
    ensures lines.None? <==> Stranded(servers, pair, |servers|)
    ensures lines.Some? ==> Rendered(render, servers, usable, pair, lines.value)
  {
    var rendered := [];
    for i := 0 to |servers|
      invariant |rendered| == i && !Stranded(servers, pair, i)
      invariant Rendered(render, servers[..i], usable, pair, rendered)
    {
      var server := servers[i];
      var inherited: Settings := map[];
      if i in pair && server.inherit {
        inherited := usable[pair[i]].options;
      } else if server.inherit {
        return None;
      }
      assert map[] + server.own == server.own;
      rendered := rendered + [render(server.address, inherited + server.own)];
    }
    assert servers[..|servers|] == servers;
    lines := Some(rendered);
  }

  /** `_build_ntp_replacements`: accepted exactly when every named source server is there once and is
      named once, there are enough source servers to replace, and every server that inherits has a partner. */
  method BuildNtpReplacements(render: (string, Settings) -> string, existing: seq<Entry>, action: Action, servers: seq<Server>)
    returns (o: Outcome, ghost usable: seq<Entry>, ghost pair: map<nat, nat>)
    ensures UsableAre(existing, usable)
    ensures action == Remove ==> o == Lines([])
    ensures action == Preserve ==> o.Lines? && LinesAre(existing, o.lines)
    ensures action in {Replace, Inject} ==> (o.NoServers? <==> servers == [])
    ensures action in {Replace, Inject} && servers != [] ==>
      (o.Cardinality? <==> !SourcesClear(servers, usable, |servers|) || TooMany(action, servers, usable))
    ensures action in {Replace, Inject} && (o.Lines? || o.IncompleteSource?) ==>
      Paired(servers, usable, pair) && (o.IncompleteSource? <==> Stranded(servers, pair, |servers|))
    ensures action in {Replace, Inject} && o.Lines? ==> Rendered(render, servers, usable, pair, o.lines)
  {
    UsableIs(existing);
    KeptLinesAre(existing);
    var taken := Usable(existing);
    usable := taken;
    pair := map[];
    if action == Remove {
      return Lines([]), usable, pair;
    }
    if action == Preserve {
      return Lines(KeptLines(existing)), usable, pair;
    }
    if servers == [] {
      return NoServers, usable, pair;
    }
    var sources := PairSources(servers, taken);
    if sources.None? {
      return Cardinality, usable, pair;
    }
    CountsCompare(servers, taken, sources.value);
    if action == Replace
       && |Remaining(|servers|, sources.value.Keys)| > |Remaining(|taken|, sources.value.Values)|
       && !(taken == [] && forall s :: s in servers ==> !s.inherit) {
      return Cardinality, usable, pair;
    }
    var chosen := PairTheRest(servers, taken, sources.value);
    pair := chosen;
    var lines := Render(render, servers, taken, chosen);
    o := if lines.Some? then Lines(lines.value) else IncompleteSource;
  }
}
