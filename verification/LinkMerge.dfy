// alred/parsing.py, merging directional LLDP and description records into one row
// per link, and alred/portable_evidence.py, the canonical order of the rows.
module LinkMerge {
  import opened Ordering

  datatype Endpoint = Endpoint(node: string, iface: string)

  /** `record_key`: the direction a record claims. */
  datatype Key = Key(src: Endpoint, dst: Endpoint)

  datatype Record = Record(key: Key, mgmtIp: string, rule: string, warnings: seq<string>)

  datatype Grade = Grade(protocol: string, confidence: string, evidence: string)

  datatype Row = Row(record: Record, grade: Grade)

  datatype Evidence = Evidence(lldp: seq<Record>, desc: seq<Record>)

  function Reverse(k: Key): Key { Key(k.dst, k.src) }

  /** The link a direction belongs to. */
  function Link(k: Key): set<Endpoint> { {k.src, k.dst} }

  function Chain(k: Key): seq<string> { [k.src.node, k.src.iface, k.dst.node, k.dst.iface] }

  /** Python's order on the key tuples. */
  const KeyLe: (Key, Key) -> bool := (a: Key, b: Key) => ChainLe(Chain(a), Chain(b))

  lemma KeyOrder()
    ensures TotalOrder(KeyLe)
  {
    ChainOrder();
    forall a ensures KeyLe(a, a) {
      assert ChainLe(Chain(a), Chain(a));
    }
    forall a, b ensures KeyLe(a, b) || KeyLe(b, a) {
      assert ChainLe(Chain(a), Chain(b)) || ChainLe(Chain(b), Chain(a));
    }
    forall a, b, c | KeyLe(a, b) && KeyLe(b, c) ensures KeyLe(a, c) {
      assert ChainLe(Chain(a), Chain(b)) && ChainLe(Chain(b), Chain(c));
    }
    forall a, b | KeyLe(a, b) && KeyLe(b, a) ensures a == b {
      assert Chain(a) == Chain(b);
      assert Chain(a)[0] == Chain(b)[0] && Chain(a)[1] == Chain(b)[1] && Chain(a)[2] == Chain(b)[2] && Chain(a)[3] == Chain(b)[3];
    }
  }

  // --------------------------------------------------------------- the indexes

  function KeysOf(records: seq<Record>): set<Key> {
    set r | r in records :: r.key
  }

  /** The dictionary by direction: a later record replaces an earlier one. */
  function ByKey(records: seq<Record>): (m: map<Key, Record>)
    ensures m.Keys == KeysOf(records)
    ensures forall k :: k in m ==> m[k] in records && m[k].key == k
  {
    if records == [] then map[]
    else
      var n := |records| - 1;
      assert records == records[..n] + [records[n]];
      ByKey(records[..n])[records[n].key := records[n]]
  }

  /** The records of one local endpoint, in order. */
  function AtLocal(records: seq<Record>, local: Endpoint): seq<Record> {
    if records == [] then []
    else
      var last := records[|records| - 1];
      AtLocal(records[..|records| - 1], local) + if last.key.src == local then [last] else []
  }

  // ---------------------------------------------------------------- mismatches

  function Format(e: Endpoint): string {
    if e.iface != "" then e.node + ":" + e.iface else e.node
  }

  predicate DescriptionMatches(lldp: Record, desc: Record) {
    && lldp.key.dst.node == desc.key.dst.node
    && (desc.key.dst.iface != "" ==> lldp.key.dst.iface == desc.key.dst.iface)
  }

  function Mismatch(lldp: Record, desc: Record): string {
    if DescriptionMatches(lldp, desc) then ""
    else "lldp-description-mismatch: lldp=" + Format(lldp.key.dst) + " description=" + Format(desc.key.dst)
  }

  function Append(warnings: seq<string>, w: string): seq<string> {
    if w == "" || w in warnings then warnings else warnings + [w]
  }

  /** The warnings of a record compared with the other source's records of its local endpoint. */
  function Warned(record: Record, others: seq<Record>, isLldp: bool): Record {
    if others == [] then record
    else
      var before := Warned(record, others[..|others| - 1], isLldp);
      var other := others[|others| - 1];
      before.(warnings := Append(before.warnings, if isLldp then Mismatch(before, other) else Mismatch(other, before)))
  }

  // ------------------------------------------------------------- one row per link

  function AllKeys(e: Evidence): set<Key> {
    KeysOf(e.lldp) + KeysOf(e.desc)
  }

  /** Both directions are claimed, by whichever source. */
  predicate Confirmed(l: set<Key>, d: set<Key>, k: Key) {
    (k in l || k in d) && (Reverse(k) in l || Reverse(k) in d)
  }

  /** Protocol, confidence and evidence, from the two key sets alone. */
  function GradeOf(l: set<Key>, d: set<Key>, k: Key): Grade {
    var r := Reverse(k);
    if k in l && r in l then Grade("lldp", "high", "bidirectional-lldp")
    else if (k in l && r in d) || (k in d && r in l) then Grade("lldp+description", "medium", "lldp-plus-description")
    else if k in d && r in d then Grade("description", "low", "bidirectional-description")
    else if k in d || r in d then Grade("description", "low", "one-way-description")
    else Grade("lldp", "low", "one-way-lldp")
  }

  /** The record a row is made from when `k` is the direction visited first. */
  function BaseOf(e: Evidence, k: Key): Record
    requires k in AllKeys(e)
  {
    var lldp, desc, r := ByKey(e.lldp), ByKey(e.desc), Reverse(k);
    if k in lldp then lldp[k]
    else if r in lldp && k in desc then lldp[r]
    else desc[k]
  }

  function RowOf(e: Evidence, k: Key): Row
    requires k in AllKeys(e)
  {
    var grade, base := GradeOf(KeysOf(e.lldp), KeysOf(e.desc), k), BaseOf(e, k);
    var local := base.key.src;
    Row(if grade.protocol != "description" then Warned(base, AtLocal(e.desc, local), true)
        else if Confirmed(KeysOf(e.lldp), KeysOf(e.desc), k) then base
        else Warned(base, AtLocal(e.lldp, local), false), grade)
  }

  function Visited(e: Evidence): seq<Key> {
    KeyOrder();
    Sorted(KeyLe, AllKeys(e))
  }

  /** The keys at which a link is met for the first time. */
  function Firsts(keys: seq<Key>): seq<Key> {
    if keys == [] then []
    else
      var last, before := keys[|keys| - 1], keys[..|keys| - 1];
      Firsts(before) + if Reverse(last) in before then [] else [last]
  }

  /** The rows of those keys whose links are, or are not, confirmed. */
  function RowsFor(e: Evidence, firsts: seq<Key>, confirmed: bool): seq<Row>
    requires forall k :: k in firsts ==> k in AllKeys(e)
  {
    if firsts == [] then []
    else
      var last := firsts[|firsts| - 1];
      assert last in firsts;
      RowsFor(e, firsts[..|firsts| - 1], confirmed) +
      if Confirmed(KeysOf(e.lldp), KeysOf(e.desc), last) == confirmed then [RowOf(e, last)] else []
  }

  lemma {:induction false} FirstsFrom(keys: seq<Key>)
    ensures forall k :: k in Firsts(keys) ==> k in keys
  {
    if keys != [] {
      FirstsFrom(keys[..|keys| - 1]);
    }
  }

  function MergedRows(e: Evidence, confirmed: bool): seq<Row> {
    FirstsFrom(Visited(e));
    RowsFor(e, Firsts(Visited(e)), confirmed)
  }

  ghost predicate Apart(keys: seq<Key>, i: int, j: int) {
    0 <= i < j < |keys| ==> Link(keys[i]) != Link(keys[j])
  }

  /** No two of the keys belong to the same link. */
  ghost predicate AllApart(keys: seq<Key>) {
    forall i, j {:trigger Apart(keys, i, j)} :: Apart(keys, i, j)
  }

  lemma ApartExtends(keys: seq<Key>, k: Key)
    requires AllApart(keys) && forall i :: 0 <= i < |keys| ==> Link(keys[i]) != Link(k)
    ensures AllApart(keys + [k])
  {
    forall i, j ensures Apart(keys + [k], i, j) {
      assert Apart(keys, i, j);
    }
  }

  lemma ApartPrefix(keys: seq<Key>, n: nat)
    requires AllApart(keys) && n <= |keys|
    ensures AllApart(keys[..n])
  {
    forall i, j ensures Apart(keys[..n], i, j) {
      assert Apart(keys, i, j);
    }
  }

  /** Over distinct keys, each link is met for the first time exactly once. */
  lemma {:induction false} FirstsCover(keys: seq<Key>)
    requires forall i, j :: 0 <= i < j < |keys| ==> keys[i] != keys[j]
    ensures forall k :: k in keys ==> k in Firsts(keys) || Reverse(k) in Firsts(keys)
    ensures AllApart(Firsts(keys))
  {
    if keys != [] {
      var n := |keys| - 1;
      var before, last := keys[..n], keys[n];
      FirstsCover(before);
      FirstsFrom(before);
      assert keys == before + [last];
      if Reverse(last) !in before {
        var firsts := Firsts(before);
        forall i | 0 <= i < |firsts| ensures Link(firsts[i]) != Link(last) {
          assert firsts[i] in firsts;
          if Link(firsts[i]) == Link(last) {
            SameLink(firsts[i], last);
          }
        }
        ApartExtends(firsts, last);
        assert Firsts(keys) == firsts + [last];
      } else {
        assert Firsts(keys) == Firsts(before) + [] == Firsts(before);
      }
    }
  }

  /** Two directions of one link are equal or opposite. */
  lemma SameLink(a: Key, b: Key)
    requires Link(a) == Link(b)
    ensures a == b || a == Reverse(b)
  {
    assert a.src in Link(b) && a.dst in Link(b) && b.src in Link(a) && b.dst in Link(a);
  }

  lemma RowOfLink(e: Evidence, k: Key)
    requires k in AllKeys(e)
    ensures Link(RowOf(e, k).record.key) == Link(k)
    ensures RowOf(e, k).grade == GradeOf(KeysOf(e.lldp), KeysOf(e.desc), RowOf(e, k).record.key)
  {
    var base := BaseOf(e, k);
    WarnedKeepsKey(base, AtLocal(e.desc, base.key.src), true);
    WarnedKeepsKey(base, AtLocal(e.lldp, base.key.src), false);
  }

  lemma {:induction false} WarnedKeepsKey(record: Record, others: seq<Record>, isLldp: bool)
    ensures Warned(record, others, isLldp).key == record.key
  {
    if others != [] {
      WarnedKeepsKey(record, others[..|others| - 1], isLldp);
    }
  }

  /** The key a row was made for. */
  lemma {:induction false} RowOrigin(e: Evidence, firsts: seq<Key>, confirmed: bool, r: Row) returns (k: Key)
    requires forall f :: f in firsts ==> f in AllKeys(e)
    requires r in RowsFor(e, firsts, confirmed)
    ensures k in firsts && r == RowOf(e, k) && Confirmed(KeysOf(e.lldp), KeysOf(e.desc), k) == confirmed
  {
    var n := |firsts| - 1;
    k := firsts[n];
    assert k in firsts;
    if r in RowsFor(e, firsts[..n], confirmed) {
      k := RowOrigin(e, firsts[..n], confirmed, r);
    }
  }

  lemma {:induction false} RowIsMade(e: Evidence, firsts: seq<Key>, confirmed: bool, k: Key)
    requires forall f :: f in firsts ==> f in AllKeys(e)
    requires k in firsts && Confirmed(KeysOf(e.lldp), KeysOf(e.desc), k) == confirmed
    ensures RowOf(e, k) in RowsFor(e, firsts, confirmed)
  {
    var n := |firsts| - 1;
    if k != firsts[n] {
      assert k in firsts[..n];
      RowIsMade(e, firsts[..n], confirmed, k);
    }
  }

  function RowKeys(rows: seq<Row>): seq<Key> {
    seq(|rows|, i requires 0 <= i < |rows| => rows[i].record.key)
  }

  /** A row of some list is for none of the links the later keys belong to. */
  lemma RowNotOfLink(e: Evidence, firsts: seq<Key>, confirmed: bool, k: Key, i: nat)
    requires forall f :: f in firsts ==> f in AllKeys(e)
    requires forall j :: 0 <= j < |firsts| ==> Link(firsts[j]) != Link(k)
    requires i < |RowsFor(e, firsts, confirmed)|
    ensures Link(RowsFor(e, firsts, confirmed)[i].record.key) != Link(k)
  {
    var row := RowsFor(e, firsts, confirmed)[i];
    var f := RowOrigin(e, firsts, confirmed, row);
    RowOfLink(e, f);
    var j :| 0 <= j < |firsts| && firsts[j] == f;
  }

  lemma RowKeysExtend(rows: seq<Row>, row: Row)
    requires AllApart(RowKeys(rows)) && forall i :: 0 <= i < |rows| ==> Link(rows[i].record.key) != Link(row.record.key)
    ensures AllApart(RowKeys(rows + [row]))
  {
    ApartExtends(RowKeys(rows), row.record.key);
    assert RowKeys(rows + [row]) == RowKeys(rows) + [row.record.key];
  }

  lemma RowsForLast(e: Evidence, firsts: seq<Key>, confirmed: bool)
    requires firsts != [] && (forall k :: k in firsts ==> k in AllKeys(e)) && AllApart(firsts)
    requires AllApart(RowKeys(RowsFor(e, firsts[..|firsts| - 1], confirmed)))
    ensures AllApart(RowKeys(RowsFor(e, firsts, confirmed)))
  {
    var n := |firsts| - 1;
    var last, rows := firsts[n], RowsFor(e, firsts[..n], confirmed);
    assert last in firsts;
    RowOfLink(e, last);
    forall i | 0 <= i < |rows| ensures Link(rows[i].record.key) != Link(last) {
      forall j | 0 <= j < n ensures Link(firsts[..n][j]) != Link(last) {
        assert Apart(firsts, j, n);
      }
      RowNotOfLink(e, firsts[..n], confirmed, last, i);
    }
    RowKeysExtend(rows, RowOf(e, last));
    assert rows + [] == rows;
  }

  /** Rows of one list belong to different links. */
  lemma {:induction false} RowsForDistinct(e: Evidence, firsts: seq<Key>, confirmed: bool)
    requires forall k :: k in firsts ==> k in AllKeys(e)
    requires AllApart(firsts)
    ensures AllApart(RowKeys(RowsFor(e, firsts, confirmed)))
  {
    if firsts == [] {
      assert RowKeys([]) == [];
    } else {
      ApartPrefix(firsts, |firsts| - 1);
      RowsForDistinct(e, firsts[..|firsts| - 1], confirmed);
      RowsForLast(e, firsts, confirmed);
    }
  }

  lemma VisitedDistinct(e: Evidence)
    ensures forall i, j :: 0 <= i < j < |Visited(e)| ==> Visited(e)[i] != Visited(e)[j]
    ensures forall k :: k in Visited(e) <==> k in AllKeys(e)
  {
    KeyOrder();
  }

  /** A row for this link, and what it says. */
  ghost predicate RowFor(e: Evidence, r: Row, k: Key) {
    && r.record.key in AllKeys(e) && Link(r.record.key) == Link(k)
    && r.grade == GradeOf(KeysOf(e.lldp), KeysOf(e.desc), k)
  }

  lemma GradeSymmetric(l: set<Key>, d: set<Key>, k: Key)
    ensures k in l + d || Reverse(k) in l + d ==> GradeOf(l, d, k) == GradeOf(l, d, Reverse(k))
    ensures Confirmed(l, d, k) == Confirmed(l, d, Reverse(k))
  {}

  /** The row of a key found under either of its directions. */
  lemma RowOfFits(e: Evidence, first: Key, k: Key)
    requires first in AllKeys(e) && (first == k || first == Reverse(k))
    ensures RowFor(e, RowOf(e, first), k)
    ensures Confirmed(KeysOf(e.lldp), KeysOf(e.desc), first) == Confirmed(KeysOf(e.lldp), KeysOf(e.desc), k)
  {
    RowOfLink(e, first);
    GradeSymmetric(KeysOf(e.lldp), KeysOf(e.desc), k);
    var base := BaseOf(e, first);
    WarnedKeepsKey(base, AtLocal(e.desc, base.key.src), true);
    WarnedKeepsKey(base, AtLocal(e.lldp, base.key.src), false);
  }

  /** Exactly one row per undirected link: in the confirmed list iff both directions are claimed, else among the candidates. */
  lemma OneRowPerLink(e: Evidence, k: Key)
    requires k in AllKeys(e)
    ensures var both := Confirmed(KeysOf(e.lldp), KeysOf(e.desc), k);
            && (exists r :: r in MergedRows(e, both) && RowFor(e, r, k))
            && (forall r :: r in MergedRows(e, !both) ==> Link(r.record.key) != Link(k))
  {
    var both := Confirmed(KeysOf(e.lldp), KeysOf(e.desc), k);
    var firsts := Firsts(Visited(e));
    VisitedDistinct(e);
    FirstsCover(Visited(e));
    FirstsFrom(Visited(e));
    var first := if k in firsts then k else Reverse(k);
    RowOfFits(e, first, k);
    RowIsMade(e, firsts, both, first);
    assert RowOf(e, first) in MergedRows(e, both);
    forall r | r in MergedRows(e, !both) ensures Link(r.record.key) != Link(k) {
      var f := RowOrigin(e, firsts, !both, r);
      RowOfLink(e, f);
      if Link(f) == Link(k) {
        SameLink(f, k);
        GradeSymmetric(KeysOf(e.lldp), KeysOf(e.desc), k);
      }
    }
  }

  /** No link has two rows in one list ... */
  lemma RowsAreDistinct(e: Evidence, confirmed: bool)
    ensures AllApart(RowKeys(MergedRows(e, confirmed)))
  {
    VisitedDistinct(e);
    FirstsCover(Visited(e));
    FirstsFrom(Visited(e));
    RowsForDistinct(e, Firsts(Visited(e)), confirmed);
  }

  /** ... and every row is for a claimed direction, in the right list. */
  lemma RowsAreClaimed(e: Evidence, confirmed: bool, r: Row)
    requires r in MergedRows(e, confirmed)
    ensures RowFor(e, r, r.record.key)
    ensures Confirmed(KeysOf(e.lldp), KeysOf(e.desc), r.record.key) == confirmed
  {
    var firsts := Firsts(Visited(e));
    FirstsFrom(Visited(e));
    VisitedDistinct(e);
    var f := RowOrigin(e, firsts, confirmed, r);
    RowOfLink(e, f);
    SameLink(f, r.record.key);
    RowOfFits(e, f, r.record.key);
  }

  // ------------------------------------------------------------ reversed records

  function ReverseAll(records: seq<Record>): seq<Record> {
    seq(|records|, i requires 0 <= i < |records| => records[i].(key := Reverse(records[i].key)))
  }

  lemma ReversedKeys(records: seq<Record>, k: Key)
    ensures k in KeysOf(ReverseAll(records)) <==> Reverse(k) in KeysOf(records)
  {
    if Reverse(k) in KeysOf(records) {
      var i :| 0 <= i < |records| && records[i].key == Reverse(k);
      assert ReverseAll(records)[i] in ReverseAll(records);
    }
    if k in KeysOf(ReverseAll(records)) {
      var i :| 0 <= i < |records| && ReverseAll(records)[i].key == k;
      assert records[i] in records;
    }
  }

  /** Reversing every record changes neither which links are confirmed nor how they are graded. */
  lemma ReversalKeepsGrades(e: Evidence, k: Key)
    requires k in AllKeys(e)
    ensures var r := Evidence(ReverseAll(e.lldp), ReverseAll(e.desc));
            && Reverse(k) in AllKeys(r)
            && GradeOf(KeysOf(r.lldp), KeysOf(r.desc), k) == GradeOf(KeysOf(e.lldp), KeysOf(e.desc), k)
            && Confirmed(KeysOf(r.lldp), KeysOf(r.desc), k) == Confirmed(KeysOf(e.lldp), KeysOf(e.desc), k)
  {
    ReversedKeys(e.lldp, k);
    ReversedKeys(e.lldp, Reverse(k));
    ReversedKeys(e.desc, k);
    ReversedKeys(e.desc, Reverse(k));
    GradeSymmetric(KeysOf(e.lldp), KeysOf(e.desc), k);
  }

  /** So the reversed records are merged into a row for the same link in the same list with the same grade. */
  lemma ReversalKeepsRows(e: Evidence, confirmed: bool, row: Row)
    requires row in MergedRows(e, confirmed)
    ensures var r := Evidence(ReverseAll(e.lldp), ReverseAll(e.desc));
            exists other :: other in MergedRows(r, confirmed)
                            && Link(other.record.key) == Link(row.record.key) && other.grade == row.grade
  {
    var k := row.record.key;
    var r := Evidence(ReverseAll(e.lldp), ReverseAll(e.desc));
    RowsAreClaimed(e, confirmed, row);
    ReversalKeepsGrades(e, k);
    GradeSymmetric(KeysOf(r.lldp), KeysOf(r.desc), k);
    OneRowPerLink(r, Reverse(k));
  }

  // ------------------------------------------------------------- the canonical order

  predicate EndpointLe(a: Endpoint, b: Endpoint) {
    ChainLe([a.node, a.iface], [b.node, b.iface])
  }

  function JoinWarnings(warnings: seq<string>): string {
    if warnings == [] then ""
    else if |warnings| == 1 then warnings[0]
    else JoinWarnings(warnings[..|warnings| - 1]) + "; " + warnings[|warnings| - 1]
  }

  /** The sort key of `_canonical_link_records`: the endpoints in order, protocol, evidence and warning. */
  function CanonicalKey(r: Row): seq<string> {
    var k := r.record.key;
    var (a, b) := if EndpointLe(k.src, k.dst) then (k.src, k.dst) else (k.dst, k.src);
    [a.node, a.iface, b.node, b.iface, r.grade.protocol, r.grade.evidence, JoinWarnings(r.record.warnings)]
  }

  const CanonicalKeyOf: Row -> seq<string> := (r: Row) => CanonicalKey(r)

  function CanonicalRecords(rows: seq<Row>): seq<Row> {
    SortBy(rows, CanonicalKeyOf, ChainLe)
  }

  /** The sort key leaves out direction, confidence and other fields, but it tells the link. */
  lemma CanonicalKeyTellsLink(a: Row, b: Row)
    requires CanonicalKey(a) == CanonicalKey(b)
    ensures Link(a.record.key) == Link(b.record.key)
  {
    var x, y := CanonicalKey(a), CanonicalKey(b);
    assert x[0] == y[0] && x[1] == y[1] && x[2] == y[2] && x[3] == y[3];
    assert Link(a.record.key) == {Endpoint(x[0], x[1]), Endpoint(x[2], x[3])};
    assert Link(b.record.key) == {Endpoint(y[0], y[1]), Endpoint(y[2], y[3])};
  }

  ghost predicate IsJoin(parts: seq<string>, text: string) {
    match |parts|
    case 0 => text == ""
    case 1 => text == parts[0]
    case n => exists before :: IsJoin(parts[..n - 1], before) && text == before + "; " + parts[n - 1]
  }

  lemma {:induction false} JoinWarningsIs(warnings: seq<string>)
    ensures IsJoin(warnings, JoinWarnings(warnings))
  {
    if |warnings| > 1 {
      JoinWarningsIs(warnings[..|warnings| - 1]);
    }
  }

  /** The sort key: both endpoints, the smaller one first whichever way the row reads, then protocol, evidence and warnings. */
  lemma CanonicalKeyIs(r: Row)
    ensures |CanonicalKey(r)| == 7
    ensures var (k, x) := (r.record.key, CanonicalKey(r));
      var a, b := Endpoint(x[0], x[1]), Endpoint(x[2], x[3]);
      && EndpointLe(a, b) && (k == Key(a, b) || k == Key(b, a))
      && x[4] == r.grade.protocol && x[5] == r.grade.evidence && IsJoin(r.record.warnings, x[6])
  {
    ChainOrder();
    var k := r.record.key;
    assert ChainLe([k.src.node, k.src.iface], [k.dst.node, k.dst.iface]) || ChainLe([k.dst.node, k.dst.iface], [k.src.node, k.src.iface]);
    JoinWarningsIs(r.record.warnings);
  }

  lemma RowsTold(rows: seq<Row>, a: Row, b: Row)
    requires AllApart(RowKeys(rows)) && a in rows && b in rows && CanonicalKey(a) == CanonicalKey(b)
    ensures a == b
  {
    CanonicalKeyTellsLink(a, b);
    var i :| 0 <= i < |rows| && rows[i] == a;
    var j :| 0 <= j < |rows| && rows[j] == b;
    assert Apart(RowKeys(rows), i, j) && Apart(RowKeys(rows), j, i);
  }

  /** The canonical records of a merge output do not depend on the order of its rows. */
  lemma CanonicalForgetsOrder(e: Evidence, confirmed: bool, rows: seq<Row>)
    requires multiset(rows) == multiset(MergedRows(e, confirmed))
    ensures CanonicalRecords(rows) == CanonicalRecords(MergedRows(e, confirmed))
  {
    var merged := MergedRows(e, confirmed);
    RowsAreDistinct(e, confirmed);
    ChainOrder();
    forall a, b | a in multiset(rows) && b in multiset(rows) && CanonicalKeyOf(a) == CanonicalKeyOf(b) ensures a == b {
      assert a in multiset(merged) && b in multiset(merged);
      RowsTold(merged, a, b);
    }
    SortForgetsOrder(rows, merged, CanonicalKeyOf, ChainLe);
  }

  // -------------------------------------------------------- the rows, by the records

  ghost predicate Has(records: seq<Record>, k: Key) {
    exists i :: 0 <= i < |records| && records[i].key == k
  }

  /** The last record of this direction. */
  ghost predicate IsLastOf(records: seq<Record>, k: Key, r: Record) {
    exists i :: 0 <= i < |records| && records[i] == r && r.key == k && forall j :: i < j < |records| ==> records[j].key != k
  }

  /** The direction that is visited first: the claimed one, or of two the smaller. */
  ghost predicate VisitedFirst(e: Evidence, f: Key) {
    && (Has(e.lldp, f) || Has(e.desc, f))
    && (Has(e.lldp, Reverse(f)) || Has(e.desc, Reverse(f)) ==> KeyLe(f, Reverse(f)))
  }

  ghost predicate BothClaimed(e: Evidence, f: Key) {
    (Has(e.lldp, f) || Has(e.desc, f)) && (Has(e.lldp, Reverse(f)) || Has(e.desc, Reverse(f)))
  }

  /** What the sources say about the two directions. */
  ghost predicate IsGrade(e: Evidence, f: Key, g: Grade) {
    var l, l', d, d' := Has(e.lldp, f), Has(e.lldp, Reverse(f)), Has(e.desc, f), Has(e.desc, Reverse(f));
    match (l, l', d, d')
    case (true, true, _, _) => g == Grade("lldp", "high", "bidirectional-lldp")
    case (true, false, _, true) => g == Grade("lldp+description", "medium", "lldp-plus-description")
    case (false, true, true, _) => g == Grade("lldp+description", "medium", "lldp-plus-description")
    case (false, false, true, true) => g == Grade("description", "low", "bidirectional-description")
    case (_, _, false, false) => g == Grade("lldp", "low", "one-way-lldp")
    case _ => g == Grade("description", "low", "one-way-description")
  }

  /** An LLDP record is preferred, the direction visited first before the other. */
  ghost predicate IsBase(e: Evidence, f: Key, base: Record) {
    || IsLastOf(e.lldp, f, base)
    || (!Has(e.lldp, f) && IsLastOf(e.lldp, Reverse(f), base))
    || (!Has(e.lldp, f) && !Has(e.lldp, Reverse(f)) && IsLastOf(e.desc, f, base))
  }

  ghost predicate Contradicts(lldp: Endpoint, desc: Endpoint) {
    lldp.node != desc.node || (desc.iface != "" && lldp.iface != desc.iface)
  }

  ghost function Shown(e: Endpoint): string {
    e.node + (if e.iface == "" then "" else ":" + e.iface)
  }

  /** `w` says that the neighbour seen by LLDP is not the one described. */
  ghost predicate SaysMismatch(lldp: Endpoint, desc: Endpoint, w: string) {
    Contradicts(lldp, desc) && w == "lldp-description-mismatch: lldp=" + Shown(lldp) + " description=" + Shown(desc)
  }

  /** The other source's record of this local endpoint gives rise to the warning. */
  ghost predicate GivesRise(base: Record, other: Record, isLldp: bool, w: string) {
    && other.key.src == base.key.src
    && if isLldp then SaysMismatch(base.key.dst, other.key.dst, w) else SaysMismatch(other.key.dst, base.key.dst, w)
  }

  /** The warnings of the base, and behind them each new one of the other source, in the order of its records. */
  ghost predicate AreWarnings(base: Record, others: seq<Record>, isLldp: bool, warnings: seq<string>) {
    && |base.warnings| <= |warnings| && warnings[..|base.warnings|] == base.warnings
    && (forall i :: |base.warnings| <= i < |warnings| ==> warnings[i] !in warnings[..i])
    && (forall k, w :: 0 <= k < |others| && GivesRise(base, others[k], isLldp, w) ==> w in warnings)
    && exists at: seq<nat> :: InOrder(base, others, isLldp, warnings, at)
  }

  /** The warnings behind those of the base come from the records with these indexes. */
  ghost predicate InOrder(base: Record, others: seq<Record>, isLldp: bool, warnings: seq<string>, at: seq<nat>) {
    && |at| == |warnings| - |base.warnings| && (forall i, j :: 0 <= i < j < |at| ==> at[i] < at[j])
    && forall i :: 0 <= i < |at| ==> at[i] < |others| && GivesRise(base, others[at[i]], isLldp, warnings[|base.warnings| + i])
  }

  ghost predicate IsRow(e: Evidence, f: Key, r: Row) {
    && IsGrade(e, f, r.grade)
    && exists base :: IsBase(e, f, base) && r.record == base.(warnings := r.record.warnings) &&
         if r.grade.protocol != "description" then AreWarnings(base, e.desc, true, r.record.warnings)
         else if r.grade.evidence == "one-way-description" then AreWarnings(base, e.lldp, false, r.record.warnings)
         else r.record.warnings == base.warnings
  }

  /** One row for each link that is, or is not, claimed in both directions, in the order in which the links are visited. */
  ghost predicate AreRows(e: Evidence, confirmed: bool, rows: seq<Row>) {
    exists fs: seq<Key> ::
      && IsSorted(KeyLe, (set f | f in AllKeys(e) && VisitedFirst(e, f) && BothClaimed(e, f) == confirmed), fs)
      && |rows| == |fs| && forall i :: 0 <= i < |fs| ==> IsRow(e, fs[i], rows[i])
  }

  lemma HasIs(records: seq<Record>, k: Key)
    ensures Has(records, k) <==> k in KeysOf(records)
  {}

  lemma {:induction false} ByKeyIsLast(records: seq<Record>, k: Key)
    requires k in ByKey(records)
    ensures IsLastOf(records, k, ByKey(records)[k])
  {
    var n := |records| - 1;
    if records[n].key == k {
      assert records[n] == ByKey(records)[k];
    } else {
      ByKeyIsLast(records[..n], k);
      var i :| 0 <= i < n && records[..n][i] == ByKey(records[..n])[k] && forall j :: i < j < n ==> records[..n][j].key != k;
      assert records[i] == ByKey(records)[k];
      forall j | i < j < |records| ensures records[j].key != k {
        assert j < n ==> records[..n][j] == records[j];
      }
    }
  }

  lemma BaseIs(e: Evidence, f: Key)
    requires f in AllKeys(e)
    ensures IsBase(e, f, BaseOf(e, f))
  {
    var r := Reverse(f);
    HasIs(e.lldp, f);
    HasIs(e.lldp, r);
    if f in ByKey(e.lldp) {
      ByKeyIsLast(e.lldp, f);
    } else if r in ByKey(e.lldp) {
      ByKeyIsLast(e.lldp, r);
    } else {
      ByKeyIsLast(e.desc, f);
    }
  }

  lemma GradeIs(e: Evidence, f: Key)
    requires f in AllKeys(e)
    ensures IsGrade(e, f, GradeOf(KeysOf(e.lldp), KeysOf(e.desc), f))
    ensures BothClaimed(e, f) == Confirmed(KeysOf(e.lldp), KeysOf(e.desc), f)
  {
    HasIs(e.lldp, f);
    HasIs(e.lldp, Reverse(f));
    HasIs(e.desc, f);
    HasIs(e.desc, Reverse(f));
  }

  /** One comparison: the warning that it adds, if it is new. */
  lemma ShownIs(e: Endpoint)
    ensures Shown(e) == Format(e)
  {
    assert e.iface == "" ==> e.node + "" == e.node;
  }

  lemma MismatchIs(lldp: Record, desc: Record, w: string)
    ensures SaysMismatch(lldp.key.dst, desc.key.dst, w) <==> Mismatch(lldp, desc) != "" && w == Mismatch(lldp, desc)
  {
    ShownIs(lldp.key.dst);
    ShownIs(desc.key.dst);
    if !DescriptionMatches(lldp, desc) {
      assert |Mismatch(lldp, desc)| > 0;
    }
  }

  lemma NothingToWarnOf(base: Record, isLldp: bool)
    ensures AreWarnings(base, [], isLldp, base.warnings)
  {
    var none: seq<nat> := [];
    assert InOrder(base, [], isLldp, base.warnings, none);
  }

  /** One more record that gives no new warning. */
  lemma NoNewWarning(base: Record, others: seq<Record>, other: Record, isLldp: bool, warnings: seq<string>)
    requires AreWarnings(base, others, isLldp, warnings)
    requires forall w :: GivesRise(base, other, isLldp, w) ==> w in warnings
    ensures AreWarnings(base, others + [other], isLldp, warnings)
  {
    var all := others + [other];
    var at: seq<nat> :| InOrder(base, others, isLldp, warnings, at);
    forall i | 0 <= i < |at| ensures all[at[i]] == others[at[i]] {}
    assert InOrder(base, all, isLldp, warnings, at);
    forall k, w | 0 <= k < |all| && GivesRise(base, all[k], isLldp, w) ensures w in warnings {
      assert k < |others| ==> all[k] == others[k];
    }
  }

  lemma NewInOrder(base: Record, others: seq<Record>, other: Record, isLldp: bool, warnings: seq<string>, w: string, at: seq<nat>)
    requires |base.warnings| <= |warnings| && InOrder(base, others, isLldp, warnings, at) && GivesRise(base, other, isLldp, w)
    ensures InOrder(base, others + [other], isLldp, warnings + [w], at + [|others|])
  {
    var all, more, longer := others + [other], warnings + [w], at + [|others|];
    forall i | 0 <= i < |longer|
      ensures longer[i] < |all| && GivesRise(base, all[longer[i]], isLldp, more[|base.warnings| + i])
    {
      if i < |at| {
        assert all[at[i]] == others[at[i]] && more[|base.warnings| + i] == warnings[|base.warnings| + i];
      }
    }
  }

  lemma NewWarning(base: Record, others: seq<Record>, other: Record, isLldp: bool, warnings: seq<string>, w: string)
    requires AreWarnings(base, others, isLldp, warnings) && w !in warnings
    requires forall v :: GivesRise(base, other, isLldp, v) <==> v == w
    ensures AreWarnings(base, others + [other], isLldp, warnings + [w])
  {
    var all, n, more := others + [other], |base.warnings|, warnings + [w];
    var at: seq<nat> :| InOrder(base, others, isLldp, warnings, at);
    NewInOrder(base, others, other, isLldp, warnings, w, at);
    forall i | n <= i < |more| ensures more[i] !in more[..i] {
      assert more[..i] == warnings[..i];
    }
    forall k, v | 0 <= k < |all| && GivesRise(base, all[k], isLldp, v) ensures v in more {
      assert k < |others| ==> all[k] == others[k];
    }
    assert more[..n] == warnings[..n];
  }

  /** The warning that a record of the same local endpoint adds. */
  lemma RisesIs(base: Record, before: Record, other: Record, isLldp: bool)
    requires before.key == base.key && other.key.src == base.key.src
    ensures var text := if isLldp then Mismatch(before, other) else Mismatch(other, before);
      forall w :: GivesRise(base, other, isLldp, w) <==> text != "" && w == text
  {
    var text := if isLldp then Mismatch(before, other) else Mismatch(other, before);
    forall w ensures GivesRise(base, other, isLldp, w) <==> text != "" && w == text {
      if isLldp { MismatchIs(before, other, w); } else { MismatchIs(other, before, w); }
    }
  }

  lemma WarnNext(base: Record, before: Record, others: seq<Record>, other: Record, isLldp: bool)
    requires before == base.(warnings := before.warnings) && AreWarnings(base, others, isLldp, before.warnings)
    requires other.key.src == base.key.src
    ensures var text := if isLldp then Mismatch(before, other) else Mismatch(other, before);
      AreWarnings(base, others + [other], isLldp, Append(before.warnings, text))
  {
    var text := if isLldp then Mismatch(before, other) else Mismatch(other, before);
    RisesIs(base, before, other, isLldp);
    if text == "" || text in before.warnings {
      NoNewWarning(base, others, other, isLldp, before.warnings);
    } else {
      NewWarning(base, others, other, isLldp, before.warnings, text);
    }
  }

  lemma {:induction false} WarningsAre(base: Record, others: seq<Record>, isLldp: bool)
    ensures var r := Warned(base, AtLocal(others, base.key.src), isLldp);
      r == base.(warnings := r.warnings) && AreWarnings(base, others, isLldp, r.warnings)
  {
    if others == [] {
      NothingToWarnOf(base, isLldp);
    } else {
      var n := |others| - 1;
      var other, local := others[n], AtLocal(others[..n], base.key.src);
      var before := Warned(base, local, isLldp);
      WarningsAre(base, others[..n], isLldp);
      assert others == others[..n] + [other];
      if other.key.src == base.key.src {
        WarnNext(base, before, others[..n], other, isLldp);
        assert AtLocal(others, base.key.src) == local + [other];
        assert (local + [other])[..|local|] == local;
      } else {
        assert AtLocal(others, base.key.src) == local + [] == local;
        NoNewWarning(base, others[..n], other, isLldp, before.warnings);
      }
    }
  }

  lemma RowIs(e: Evidence, f: Key)
    requires f in AllKeys(e)
    ensures IsRow(e, f, RowOf(e, f))
  {
    var base, row := BaseOf(e, f), RowOf(e, f);
    BaseIs(e, f);
    GradeIs(e, f);
    WarningsAre(base, e.desc, true);
    WarningsAre(base, e.lldp, false);
    assert row.record == base.(warnings := row.record.warnings);
  }

  /** The keys at which links are met first, in their order. */
  lemma {:induction false} FirstsAre(keys: seq<Key>)
    requires Ascending(KeyLe, keys)
    ensures Ascending(KeyLe, Firsts(keys))
    ensures forall k :: k in Firsts(keys) <==> k in keys && (Reverse(k) in keys ==> KeyLe(k, Reverse(k)))
  {
    KeyOrder();
    if keys != [] {
      var n := |keys| - 1;
      var before, last := keys[..n], keys[n];
      FirstsAre(before);
      assert keys == before + [last];
      forall k | k in before ensures KeyLe(k, last) && k != last {
        var i :| 0 <= i < n && before[i] == k;
        assert keys[i] == k;
      }
      forall i | 0 <= i < |Firsts(before)| ensures Firsts(before)[i] in before {
        assert Firsts(before)[i] in Firsts(before);
      }
      assert Reverse(last) in keys && !KeyLe(last, Reverse(last)) <==> Reverse(last) in before;
    }
  }

  /** The keys the rows of one list are made for. */
  ghost function Chosen(e: Evidence, firsts: seq<Key>, confirmed: bool): (fs: seq<Key>) {
    if firsts == [] then []
    else
      var last := firsts[|firsts| - 1];
      Chosen(e, firsts[..|firsts| - 1], confirmed) +
      if Confirmed(KeysOf(e.lldp), KeysOf(e.desc), last) == confirmed then [last] else []
  }

  lemma {:induction false} ChosenMake(e: Evidence, firsts: seq<Key>, confirmed: bool)
    requires forall k :: k in firsts ==> k in AllKeys(e)
    ensures var (fs, rows) := (Chosen(e, firsts, confirmed), RowsFor(e, firsts, confirmed));
      |rows| == |fs| && forall i :: 0 <= i < |fs| ==> fs[i] in AllKeys(e) && rows[i] == RowOf(e, fs[i])
  {
    if firsts != [] {
      assert firsts[|firsts| - 1] in firsts;
      ChosenMake(e, firsts[..|firsts| - 1], confirmed);
    }
  }

  lemma {:induction false} ChosenAre(e: Evidence, firsts: seq<Key>, confirmed: bool)
    requires Ascending(KeyLe, firsts)
    ensures Ascending(KeyLe, Chosen(e, firsts, confirmed))
    ensures forall k :: k in Chosen(e, firsts, confirmed) <==>
      k in firsts && Confirmed(KeysOf(e.lldp), KeysOf(e.desc), k) == confirmed
  {
    if firsts != [] {
      var n := |firsts| - 1;
      var before := Chosen(e, firsts[..n], confirmed);
      ChosenAre(e, firsts[..n], confirmed);
      assert firsts == firsts[..n] + [firsts[n]];
      forall i | 0 <= i < |before| ensures KeyLe(before[i], firsts[n]) && before[i] != firsts[n] {
        assert before[i] in before && before[i] in firsts[..n];
        var j :| 0 <= j < n && firsts[..n][j] == before[i];
        assert firsts[j] == before[i];
      }
    }
  }

  lemma VisitedFirstIs(e: Evidence, f: Key)
    ensures f in AllKeys(e) && (Reverse(f) in AllKeys(e) ==> KeyLe(f, Reverse(f))) <==> VisitedFirst(e, f)
  {
    HasIs(e.lldp, f);
    HasIs(e.lldp, Reverse(f));
    HasIs(e.desc, f);
    HasIs(e.desc, Reverse(f));
  }

  /** The rows of the merge are those that the records call for. */
  lemma MergedRowsAre(e: Evidence, confirmed: bool)
    ensures AreRows(e, confirmed, MergedRows(e, confirmed))
  {
    var firsts := Firsts(Visited(e));
    KeyOrder();
    FirstsFrom(Visited(e));
    VisitedDistinct(e);
    FirstsAre(Visited(e));
    ChosenAre(e, firsts, confirmed);
    ChosenMake(e, firsts, confirmed);
    var fs, rows := Chosen(e, firsts, confirmed), MergedRows(e, confirmed);
    forall f ensures f in fs <==> f in AllKeys(e) && VisitedFirst(e, f) && BothClaimed(e, f) == confirmed {
      VisitedFirstIs(e, f);
      if f in AllKeys(e) {
        GradeIs(e, f);
      }
    }
    forall i | 0 <= i < |fs| ensures IsRow(e, fs[i], rows[i]) {
      RowIs(e, fs[i]);
    }
    assert IsSorted(KeyLe, (set f | f in AllKeys(e) && VisitedFirst(e, f) && BothClaimed(e, f) == confirmed), fs);
  }

  // ------------------------------------------------------------------ the code

  /** The comparison with the records of the other source at the local endpoint. */
  method WarnAgainst(record: Record, others: seq<Record>, isLldp: bool) returns (r: Record)
    ensures r == Warned(record, others, isLldp)
  {
    r := record;
    for i := 0 to |others|
      invariant r == Warned(record, others[..i], isLldp)
    {
      assert others[..i + 1][..i] == others[..i];
      var warning := if isLldp then Mismatch(r, others[i]) else Mismatch(others[i], r);
      r := r.(warnings := Append(r.warnings, warning));
    }
    assert others[..|others|] == others;
  }

  /** One iteration of the merge loop, for a link not yet emitted. */
  method MakeRow(e: Evidence, lldp: map<Key, Record>, desc: map<Key, Record>, key: Key) returns (row: Row, confirmed: bool)
    requires key in AllKeys(e) && lldp == ByKey(e.lldp) && desc == ByKey(e.desc)
    ensures row == RowOf(e, key) && confirmed == Confirmed(KeysOf(e.lldp), KeysOf(e.desc), key)
  {
    var reverse := Reverse(key);
    var base: Record;
    var grade: Grade;
    confirmed := true;
    if key in lldp && reverse in lldp {
      base, grade := lldp[key], Grade("lldp", "high", "bidirectional-lldp");
    } else if (key in lldp && reverse in desc) || (key in desc && reverse in lldp) {
      base := if key in lldp then lldp[key] else lldp[reverse];
      grade := Grade("lldp+description", "medium", "lldp-plus-description");
    } else if key in desc && reverse in desc {
      base, grade := desc[key], Grade("description", "low", "bidirectional-description");
    } else {
      confirmed := false;
      base := if key in lldp then lldp[key] else desc[key];
      grade := if key in desc || reverse in desc then Grade("description", "low", "one-way-description")
               else Grade("lldp", "low", "one-way-lldp");
    }
    if grade.protocol != "description" {
      base := WarnAgainst(base, AtLocal(e.desc, base.key.src), true);
    } else if !confirmed {
      base := WarnAgainst(base, AtLocal(e.lldp, base.key.src), false);
    }
    row := Row(base, grade);
  }

  function Canonical(k: Key): set<Key> { {k, Reverse(k)} }

  lemma CanonicalTells(a: Key, b: Key)
    ensures Canonical(a) == Canonical(b) <==> a == b || a == Reverse(b)
  {
    assert a in Canonical(a) && b in Canonical(b);
  }

  /** The links met so far. */
  function Emitted(keys: seq<Key>): set<set<Key>> {
    set k | k in keys :: Canonical(k)
  }

  lemma EmittedTells(keys: seq<Key>, key: Key)
    ensures Canonical(key) in Emitted(keys) <==> key in keys || Reverse(key) in keys
    ensures Emitted(keys + [key]) == Emitted(keys) + {Canonical(key)}
  {
    if Canonical(key) in Emitted(keys) {
      var k :| k in keys && Canonical(k) == Canonical(key);
      CanonicalTells(k, key);
    }
    CanonicalTells(Reverse(key), key);
    if key in keys || Reverse(key) in keys {
      assert Canonical(key) in Emitted(keys);
    }
    forall c ensures c in Emitted(keys + [key]) <==> c in Emitted(keys) + {Canonical(key)} {
      if c in Emitted(keys + [key]) {
        var k :| k in keys + [key] && Canonical(k) == c;
      }
      if c in Emitted(keys) {
        var k :| k in keys && Canonical(k) == c;
        assert k in keys + [key];
      }
      assert key in keys + [key];
    }
  }

  /** The loop state of the merge after some of the keys. */
  ghost predicate MergedUpTo(e: Evidence, keys: seq<Key>, emitted: set<set<Key>>, confirmed: seq<Row>, candidates: seq<Row>) {
    && (forall k :: k in Firsts(keys) ==> k in AllKeys(e))
    && emitted == Emitted(keys)
    && confirmed == RowsFor(e, Firsts(keys), true) && candidates == RowsFor(e, Firsts(keys), false)
  }

  lemma MergeSkips(e: Evidence, keys: seq<Key>, key: Key, emitted: set<set<Key>>, confirmed: seq<Row>, candidates: seq<Row>)
    requires MergedUpTo(e, keys, emitted, confirmed, candidates) && Canonical(key) in emitted && key !in keys
    ensures MergedUpTo(e, keys + [key], emitted, confirmed, candidates)
  {
    EmittedTells(keys, key);
    assert (keys + [key])[..|keys|] == keys;
    assert Firsts(keys + [key]) == Firsts(keys) + [] == Firsts(keys);
    assert emitted + {Canonical(key)} == emitted;
  }

  lemma MergeEmits(e: Evidence, keys: seq<Key>, key: Key, emitted: set<set<Key>>, confirmed: seq<Row>, candidates: seq<Row>)
    requires MergedUpTo(e, keys, emitted, confirmed, candidates) && Canonical(key) !in emitted && key in AllKeys(e)
    ensures var both := Confirmed(KeysOf(e.lldp), KeysOf(e.desc), key);
            MergedUpTo(e, keys + [key], emitted + {Canonical(key)}, if both then confirmed + [RowOf(e, key)] else confirmed,
                       if both then candidates else candidates + [RowOf(e, key)])
  {
    EmittedTells(keys, key);
    var firsts := Firsts(keys);
    assert (keys + [key])[..|keys|] == keys;
    assert Firsts(keys + [key]) == firsts + [key];
    assert (firsts + [key])[..|firsts|] == firsts;
    assert confirmed + [] == confirmed && candidates + [] == candidates;
  }

  lemma NextKey(e: Evidence, i: nat)
    requires i < |Visited(e)|
    ensures var keys := Visited(e); keys[i] in AllKeys(e) && keys[i] !in keys[..i] && keys[..i + 1] == keys[..i] + [keys[i]]
  {
    VisitedDistinct(e);
    assert Visited(e)[i] in Visited(e);
  }

  lemma MergeStarts(e: Evidence)
    ensures MergedUpTo(e, [], {}, [], [])
  {}

  lemma MergeEnds(e: Evidence, emitted: set<set<Key>>, confirmed: seq<Row>, candidates: seq<Row>)
    requires MergedUpTo(e, Visited(e), emitted, confirmed, candidates)
    ensures confirmed == MergedRows(e, true) && candidates == MergedRows(e, false)
  {}

  /** One iteration of the merge loop. */
  method Visit(e: Evidence, lldp: map<Key, Record>, desc: map<Key, Record>, ghost before: seq<Key>, key: Key,
               emitted: set<set<Key>>, confirmed: seq<Row>, candidates: seq<Row>)
    returns (emitted': set<set<Key>>, confirmed': seq<Row>, candidates': seq<Row>)
    requires lldp == ByKey(e.lldp) && desc == ByKey(e.desc) && key in AllKeys(e) && key !in before
    requires MergedUpTo(e, before, emitted, confirmed, candidates)
    ensures MergedUpTo(e, before + [key], emitted', confirmed', candidates')
  {
    emitted', confirmed', candidates' := emitted, confirmed, candidates;
    if Canonical(key) in emitted {
      MergeSkips(e, before, key, emitted, confirmed, candidates);
    } else {
      MergeEmits(e, before, key, emitted, confirmed, candidates);
      var row, both := MakeRow(e, lldp, desc, key);
      if both {
        confirmed' := confirmed + [row];
      } else {
        candidates' := candidates + [row];
      }
      emitted' := emitted + {Canonical(key)};
    }
  }

  /** `merge_lldp_and_description_links` */
  method Merge(e: Evidence) returns (confirmed: seq<Row>, candidates: seq<Row>)
    ensures confirmed == MergedRows(e, true) && candidates == MergedRows(e, false)
    ensures AreRows(e, true, confirmed) && AreRows(e, false, candidates)
  {
    MergedRowsAre(e, true);
    MergedRowsAre(e, false);
    var lldp, desc := ByKey(e.lldp), ByKey(e.desc);
    var keys := Visited(e);
    confirmed, candidates := [], [];
    var emitted: set<set<Key>> := {};
    MergeStarts(e);
    var i := 0;
    ghost var done: seq<Key> := [];
    while i < |keys|
      invariant 0 <= i <= |keys| && done == keys[..i] && keys == Visited(e)
      invariant MergedUpTo(e, done, emitted, confirmed, candidates)
    {
      NextKey(e, i);
      emitted, confirmed, candidates := Visit(e, lldp, desc, done, keys[i], emitted, confirmed, candidates);
      done := done + [keys[i]];
      i := i + 1;
    }
    assert done == keys;
    MergeEnds(e, emitted, confirmed, candidates);
  }
}
