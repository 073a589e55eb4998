// alred/rollback_verification.py: the JSON Pointer paths at which two JSON documents
// differ, and the comparison of one device before a change and after its rollback.
module SemanticDiff {
  import opened Ordering

  datatype Json =
    | Null | Bool(flag: bool) | Int(number: int) | Float(value: real) | Str(text: string)
    | Arr(items: seq<Json>) | Obj(fields: map<string, Json>)

  type Tokens = seq<string>

  /** Python's `==` on values that are not both objects or both lists: True equals 1, and 1 equals 1.0. */
  predicate LeafEqual(a: Json, b: Json) {
    if Numeric(a) && Numeric(b) then Value(a) == Value(b)
    else (a.Null? && b.Null?) || (a.Str? && b.Str? && a.text == b.text)
  }

  predicate Numeric(a: Json) { a.Bool? || a.Int? || a.Float? }

  function Value(a: Json): real
    requires Numeric(a)
  {
    match a
    case Bool(flag) => if flag then 1.0 else 0.0
    case Int(i) => i as real
    case Float(r) => r
  }

  /** Python's `==` on whole documents. */
  predicate Equal(a: Json, b: Json)
    decreases a
  {
    if a.Obj? && b.Obj? then
      a.fields.Keys == b.fields.Keys && forall k :: k in a.fields ==> Equal(a.fields[k], b.fields[k])
    else if a.Arr? && b.Arr? then
      |a.items| == |b.items| && forall i :: 0 <= i < |a.items| ==> Equal(a.items[i], b.items[i])
    else LeafEqual(a, b)
  }

  /** The same, kind by kind. */
  ghost predicate Alike(a: Json, b: Json)
    decreases a
  {
    match (a, b)
    case (Null, Null) => true
    case (Str(x), Str(y)) => x == y
    case (Bool(x), Bool(y)) => x == y
    case (Bool(x), Int(n)) => n == if x then 1 else 0
    case (Int(n), Bool(y)) => n == if y then 1 else 0
    case (Bool(x), Float(r)) => r == if x then 1.0 else 0.0
    case (Float(r), Bool(y)) => r == if y then 1.0 else 0.0
    case (Int(m), Int(n)) => m == n
    case (Int(n), Float(r)) => n as real == r
    case (Float(r), Int(n)) => r == n as real
    case (Float(q), Float(r)) => q == r
    case (Arr(x), Arr(y)) => |x| == |y| && forall i :: 0 <= i < |x| ==> Alike(x[i], y[i])
    case (Obj(x), Obj(y)) => x.Keys == y.Keys && forall k :: k in x ==> Alike(x[k], y[k])
    case _ => false
  }

  lemma {:induction false} EqualIsAlike(a: Json, b: Json)
    ensures Equal(a, b) <==> Alike(a, b)
    decreases a
  {
    if a.Obj? && b.Obj? {
      forall k | k in a.fields && k in b.fields ensures Equal(a.fields[k], b.fields[k]) <==> Alike(a.fields[k], b.fields[k]) {
        EqualIsAlike(a.fields[k], b.fields[k]);
      }
    } else if a.Arr? && b.Arr? {
      forall i | 0 <= i < |a.items| && i < |b.items| ensures Equal(a.items[i], b.items[i]) <==> Alike(a.items[i], b.items[i]) {
        EqualIsAlike(a.items[i], b.items[i]);
      }
    } else {
      LeafIsAlike(a, b);
    }
  }

  lemma LeafIsAlike(a: Json, b: Json)
    requires !(a.Obj? && b.Obj?) && !(a.Arr? && b.Arr?)
    ensures LeafEqual(a, b) <==> Alike(a, b)
  {}

  // ------------------------------------------------------------------- list indexes

  function Digit(d: nat): char
    requires d < 10
  {
    "0123456789"[d]
  }

  /** `str(index)` */
  function Decimal(n: nat): (s: string)
    ensures s != "" && '/' !in s && '~' !in s
  {
    if n < 10 then [Digit(n)] else Decimal(n / 10) + [Digit(n % 10)]
  }

  lemma {:induction false} DecimalInjective(m: nat, n: nat)
    requires Decimal(m) == Decimal(n)
    ensures m == n
  {
    var s, t := Decimal(m), Decimal(n);
    assert s[|s| - 1] == Digit(m % 10) && t[|t| - 1] == Digit(n % 10);
    if m >= 10 && n >= 10 {
      assert s[..|s| - 1] == Decimal(m / 10) && t[..|t| - 1] == Decimal(n / 10);
      DecimalInjective(m / 10, n / 10);
    }
  }

  function Number(s: string): int {
    if s == "" then 0 else 10 * Number(s[..|s| - 1]) + (s[|s| - 1] as int - '0' as int)
  }

  lemma {:induction false} DecimalReads(n: nat)
    ensures Number(Decimal(n)) == n
  {
    if n >= 10 {
      var s := Decimal(n);
      assert s[..|s| - 1] == Decimal(n / 10) && s[|s| - 1] == Digit(n % 10);
      DecimalReads(n / 10);
    } else {
      assert [Digit(n)][..0] == "";
    }
  }

  // ------------------------------------------------------------------- differences

  function KeysOf(a: Json, b: Json): seq<string>
    requires a.Obj? && b.Obj?
  {
    StrOrder();
    Sorted(StrLe, a.fields.Keys + b.fields.Keys)
  }

  function Max(a: nat, b: nat): nat { if a >= b then a else b }

  function Prefixed(token: string, paths: seq<Tokens>): seq<Tokens> {
    seq(|paths|, i requires 0 <= i < |paths| => [token] + paths[i])
  }

  /** The token lists of the differences, in the order the recursion finds them. */
  function Diff(a: Json, b: Json): seq<Tokens>
    decreases a, 1, 0
  {
    if a.Obj? && b.Obj? then DiffFields(a, b, KeysOf(a, b))
    else if a.Arr? && b.Arr? then DiffItems(a, b, Max(|a.items|, |b.items|))
    else if LeafEqual(a, b) then [] else [[]]
  }

  function DiffFields(a: Json, b: Json, keys: seq<string>): seq<Tokens>
    requires a.Obj? && b.Obj?
    decreases a, 0, |keys|
  {
    if keys == [] then [] else DiffFields(a, b, keys[..|keys| - 1]) + DiffField(a, b, keys[|keys| - 1])
  }

  function DiffField(a: Json, b: Json, key: string): seq<Tokens>
    requires a.Obj? && b.Obj?
    decreases a, 0, 0
  {
    if key !in a.fields || key !in b.fields then [[key]]
    else Prefixed(key, Diff(a.fields[key], b.fields[key]))
  }

  function DiffItems(a: Json, b: Json, n: nat): seq<Tokens>
    requires a.Arr? && b.Arr?
    decreases a, 0, n
  {
    if n == 0 then [] else DiffItems(a, b, n - 1) + DiffItem(a, b, n - 1)
  }

  function DiffItem(a: Json, b: Json, i: nat): seq<Tokens>
    requires a.Arr? && b.Arr?
    decreases a, 0, 0
  {
    if i >= |a.items| || i >= |b.items| then [[Decimal(i)]]
    else Prefixed(Decimal(i), Diff(a.items[i], b.items[i]))
  }

  // ------------------------------------------------- what a difference is, exactly

  /** A difference nobody above it accounts for: both documents go the way of the tokens through containers
      of one kind, and at the end one of them stops short, or they differ there and not further down. */
  ghost predicate Genuine(a: Json, b: Json, t: Tokens)
    decreases a, 1
  {
    if a.Obj? && b.Obj? then
      t != [] && (t[0] in a.fields || t[0] in b.fields)
      && if t[0] in a.fields && t[0] in b.fields then Genuine(a.fields[t[0]], b.fields[t[0]], t[1..]) else |t| == 1
    else if a.Arr? && b.Arr? then
      exists i: nat :: i < Max(|a.items|, |b.items|) && GenuineItem(a, b, t, i)
    else t == [] && !Alike(a, b)
  }

  ghost predicate GenuineItem(a: Json, b: Json, t: Tokens, i: nat)
    requires a.Arr? && b.Arr?
    decreases a, 0
  {
    t != [] && t[0] == Decimal(i)
    && if i < |a.items| && i < |b.items| then Genuine(a.items[i], b.items[i], t[1..]) else |t| == 1
  }

  lemma PrefixedHas(token: string, paths: seq<Tokens>, t: Tokens)
    ensures t in Prefixed(token, paths) <==> t != [] && t[0] == token && t[1..] in paths
  {
    if t in Prefixed(token, paths) {
      var i :| 0 <= i < |paths| && [token] + paths[i] == t;
      assert t[1..] == paths[i];
    }
    if t != [] && t[0] == token && t[1..] in paths {
      var i :| 0 <= i < |paths| && paths[i] == t[1..];
      assert Prefixed(token, paths)[i] == t;
    }
  }

  lemma {:induction false} FieldOrigin(a: Json, b: Json, keys: seq<string>, t: Tokens) returns (k: string)
    requires a.Obj? && b.Obj? && t in DiffFields(a, b, keys)
    ensures k in keys && t in DiffField(a, b, k)
    decreases |keys|
  {
    var n := |keys| - 1;
    k := keys[n];
    if t in DiffFields(a, b, keys[..n]) {
      k := FieldOrigin(a, b, keys[..n], t);
    }
  }

  lemma {:induction false} FieldIn(a: Json, b: Json, keys: seq<string>, t: Tokens, k: string)
    requires a.Obj? && b.Obj? && k in keys && t in DiffField(a, b, k)
    ensures t in DiffFields(a, b, keys)
    decreases |keys|
  {
    var n := |keys| - 1;
    if k != keys[n] {
      assert k in keys[..n];
      FieldIn(a, b, keys[..n], t, k);
    }
  }

  lemma {:induction false} ItemOrigin(a: Json, b: Json, n: nat, t: Tokens) returns (i: nat)
    requires a.Arr? && b.Arr? && t in DiffItems(a, b, n)
    ensures i < n && t in DiffItem(a, b, i)
    decreases n
  {
    i := n - 1;
    if t in DiffItems(a, b, n - 1) {
      i := ItemOrigin(a, b, n - 1, t);
    }
  }

  lemma {:induction false} ItemIn(a: Json, b: Json, n: nat, t: Tokens, i: nat)
    requires a.Arr? && b.Arr? && i < n && t in DiffItem(a, b, i)
    ensures t in DiffItems(a, b, n)
    decreases n
  {
    if i < n - 1 {
      ItemIn(a, b, n - 1, t, i);
    }
  }

  lemma FieldHead(a: Json, b: Json, key: string, t: Tokens)
    requires a.Obj? && b.Obj? && t in DiffField(a, b, key)
    ensures t != [] && t[0] == key
  {
    if key in a.fields && key in b.fields {
      PrefixedHas(key, Diff(a.fields[key], b.fields[key]), t);
    }
  }

  lemma ItemHead(a: Json, b: Json, i: nat, t: Tokens)
    requires a.Arr? && b.Arr? && t in DiffItem(a, b, i)
    ensures t != [] && t[0] == Decimal(i)
  {
    if i < |a.items| && i < |b.items| {
      PrefixedHas(Decimal(i), Diff(a.items[i], b.items[i]), t);
    }
  }

  /** The result lists exactly the genuine differences. */
  lemma {:induction false} DiffIsExact(a: Json, b: Json, t: Tokens)
    ensures t in Diff(a, b) <==> Genuine(a, b, t)
    decreases a
  {
    if a.Obj? && b.Obj? {
      FieldsExact(a, b, t);
    } else if a.Arr? && b.Arr? {
      ItemsExact(a, b, t);
    } else {
      LeafIsAlike(a, b);
    }
  }

  lemma {:induction false} FieldsExact(a: Json, b: Json, t: Tokens)
    requires a.Obj? && b.Obj?
    ensures t in Diff(a, b) <==> Genuine(a, b, t)
    decreases a, 0
  {
    var keys := KeysOf(a, b);
    if t in Diff(a, b) {
      var k := FieldOrigin(a, b, keys, t);
      FieldHead(a, b, k, t);
    }
    if t != [] && t[0] in a.fields && t[0] in b.fields {
      PrefixedHas(t[0], Diff(a.fields[t[0]], b.fields[t[0]]), t);
      DiffIsExact(a.fields[t[0]], b.fields[t[0]], t[1..]);
    } else if t != [] && |t| == 1 {
      assert t == [t[0]];
    }
    if Genuine(a, b, t) {
      FieldIn(a, b, keys, t, t[0]);
    }
  }

  lemma {:induction false} ItemExact(a: Json, b: Json, i: nat, t: Tokens)
    requires a.Arr? && b.Arr?
    ensures t in DiffItem(a, b, i) <==> GenuineItem(a, b, t, i)
    decreases a, 0
  {
    if i < |a.items| && i < |b.items| {
      PrefixedHas(Decimal(i), Diff(a.items[i], b.items[i]), t);
      if t != [] {
        DiffIsExact(a.items[i], b.items[i], t[1..]);
      }
    } else if t != [] && |t| == 1 {
      assert t == [t[0]];
    }
  }

  lemma GenuineIndex(a: Json, b: Json, t: Tokens) returns (i: nat)
    requires a.Arr? && b.Arr? && Genuine(a, b, t)
    ensures i < Max(|a.items|, |b.items|) && GenuineItem(a, b, t, i)
  {
    i :| i < Max(|a.items|, |b.items|) && GenuineItem(a, b, t, i);
  }

  lemma {:induction false} ItemsExact(a: Json, b: Json, t: Tokens)
    requires a.Arr? && b.Arr?
    ensures t in Diff(a, b) <==> Genuine(a, b, t)
    decreases a, 1
  {
    var n := Max(|a.items|, |b.items|);
    if t in Diff(a, b) {
      var i := ItemOrigin(a, b, n, t);
      ItemExact(a, b, i, t);
    }
    if Genuine(a, b, t) {
      var i := GenuineIndex(a, b, t);
      ItemExact(a, b, i, t);
      ItemIn(a, b, n, t, i);
    }
  }

  // ----------------------------------------------------------- consequences for all pairs

  /** No path is found exactly when the documents are equal. */
  lemma EmptyMeansAlike(a: Json, b: Json)
    ensures Diff(a, b) == [] <==> Alike(a, b)
  {
    EmptyMeansEqual(a, b);
    EqualIsAlike(a, b);
  }

  lemma {:induction false} EmptyMeansEqual(a: Json, b: Json)
    ensures Diff(a, b) == [] <==> Equal(a, b)
    decreases a, 2
  {
    if a.Obj? && b.Obj? {
      if Equal(a, b) {
        FieldsEmpty(a, b, KeysOf(a, b));
      }
      if Diff(a, b) == [] {
        FieldsEqual(a, b);
      }
    } else if a.Arr? && b.Arr? {
      if Equal(a, b) {
        ItemsEmpty(a, b, Max(|a.items|, |b.items|));
      }
      if Diff(a, b) == [] {
        ItemsEqual(a, b);
      }
    }
  }

  lemma {:induction false} FieldsEqual(a: Json, b: Json)
    requires a.Obj? && b.Obj? && Diff(a, b) == []
    ensures Equal(a, b)
    decreases a, 1
  {
    forall k | k in a.fields || k in b.fields ensures k in a.fields && k in b.fields && Equal(a.fields[k], b.fields[k]) {
      FieldsSilent(a, b, KeysOf(a, b), k);
      if k in a.fields && k in b.fields {
        EmptyMeansEqual(a.fields[k], b.fields[k]);
      }
    }
  }

  lemma {:induction false} ItemsEqual(a: Json, b: Json)
    requires a.Arr? && b.Arr? && Diff(a, b) == []
    ensures Equal(a, b)
    decreases a, 1
  {
    var n := Max(|a.items|, |b.items|);
    if n > 0 {
      ItemsSilent(a, b, n, n - 1);
    }
    forall i | 0 <= i < n ensures i < |a.items| && i < |b.items| && Equal(a.items[i], b.items[i]) {
      ItemsSilent(a, b, n, i);
      if i < |a.items| && i < |b.items| {
        EmptyMeansEqual(a.items[i], b.items[i]);
      }
    }
  }

  lemma {:induction false} FieldsEmpty(a: Json, b: Json, keys: seq<string>)
    requires a.Obj? && b.Obj? && Equal(a, b) && forall k :: k in keys ==> k in a.fields || k in b.fields
    ensures DiffFields(a, b, keys) == []
    decreases a, 0, |keys|
  {
    if keys != [] {
      var k := keys[|keys| - 1];
      assert k in keys && k in a.fields.Keys && k in b.fields.Keys;
      FieldsEmpty(a, b, keys[..|keys| - 1]);
      EmptyMeansEqual(a.fields[k], b.fields[k]);
    }
  }

  lemma {:induction false} FieldsSilent(a: Json, b: Json, keys: seq<string>, k: string)
    requires a.Obj? && b.Obj? && DiffFields(a, b, keys) == [] && k in keys
    ensures k in a.fields && k in b.fields && Diff(a.fields[k], b.fields[k]) == []
    decreases |keys|
  {
    var n := |keys| - 1;
    assert DiffField(a, b, keys[n]) == [] && DiffFields(a, b, keys[..n]) == [];
    if k == keys[n] {
      assert |Prefixed(k, Diff(a.fields[k], b.fields[k]))| == |Diff(a.fields[k], b.fields[k])|;
    } else {
      assert k in keys[..n];
      FieldsSilent(a, b, keys[..n], k);
    }
  }

  lemma {:induction false} ItemsEmpty(a: Json, b: Json, n: nat)
    requires a.Arr? && b.Arr? && Equal(a, b) && n <= Max(|a.items|, |b.items|)
    ensures DiffItems(a, b, n) == []
    decreases a, 0, n
  {
    if n > 0 {
      ItemsEmpty(a, b, n - 1);
      EmptyMeansEqual(a.items[n - 1], b.items[n - 1]);
    }
  }

  lemma {:induction false} ItemsSilent(a: Json, b: Json, n: nat, i: nat)
    requires a.Arr? && b.Arr? && DiffItems(a, b, n) == [] && i < n
    ensures i < |a.items| && i < |b.items| && Diff(a.items[i], b.items[i]) == []
    decreases n
  {
    assert DiffItem(a, b, n - 1) == [] && DiffItems(a, b, n - 1) == [];
    if i == n - 1 {
      assert |Prefixed(Decimal(i), Diff(a.items[i], b.items[i]))| == |Diff(a.items[i], b.items[i])|;
    } else {
      ItemsSilent(a, b, n - 1, i);
    }
  }

  /** One genuine difference is never above another. */
  lemma {:induction false} GenuineIsMinimal(a: Json, b: Json, t: Tokens, u: Tokens)
    requires Genuine(a, b, t) && Genuine(a, b, u) && t <= u
    ensures t == u
    decreases a
  {
    if a.Obj? && b.Obj? {
      assert t[0] == u[0];
      if t[0] in a.fields && t[0] in b.fields {
        GenuineIsMinimal(a.fields[t[0]], b.fields[t[0]], t[1..], u[1..]);
        assert t == [t[0]] + t[1..] && u == [u[0]] + u[1..];
      }
    } else if a.Arr? && b.Arr? {
      var n := Max(|a.items|, |b.items|);
      var i: nat :| i < n && GenuineItem(a, b, t, i);
      var j: nat :| j < n && GenuineItem(a, b, u, j);
      assert t[0] == u[0];
      DecimalInjective(i, j);
      if i < |a.items| && i < |b.items| {
        GenuineIsMinimal(a.items[i], b.items[i], t[1..], u[1..]);
        assert t == [t[0]] + t[1..] && u == [u[0]] + u[1..];
      }
    }
  }

  /** Following tokens into a document. */
  function Resolve(a: Json, t: Tokens): seq<Json>
    decreases a
  {
    if t == [] then [a]
    else if a.Obj? then (if t[0] in a.fields then Resolve(a.fields[t[0]], t[1..]) else [])
    else if a.Arr? then
      (if exists i: nat :: i < |a.items| && Decimal(i) == t[0] then Resolve(a.items[IndexOf(a, t[0])], t[1..]) else [])
    else []
  }

  function IndexOf(a: Json, token: string): (i: nat)
    requires a.Arr? && exists i: nat :: i < |a.items| && Decimal(i) == token
    ensures i < |a.items| && Decimal(i) == token
  {
    IndexIsOne(a, token);
    var i: nat :| i < |a.items| && Decimal(i) == token;
    i
  }

  lemma IndexIsOne(a: Json, token: string)
    requires a.Arr?
    ensures forall i: nat, j: nat :: i < |a.items| && j < |a.items| && Decimal(i) == token && Decimal(j) == token ==> i == j
  {
    forall i: nat, j: nat | i < |a.items| && j < |a.items| && Decimal(i) == token && Decimal(j) == token ensures i == j {
      DecimalInjective(i, j);
    }
  }

  ghost predicate OneDown(a: Json, token: string, b: Json) {
    || (a.Obj? && token in a.fields && a.fields[token] == b)
    || (a.Arr? && exists i: nat :: i < |a.items| && Decimal(i) == token && a.items[i] == b)
  }

  /** The tokens lead from the document to the value, one container down with each. */
  ghost predicate Leads(a: Json, t: Tokens, v: Json) {
    exists way: seq<Json> :: |way| == |t| + 1 && way[0] == a && way[|t|] == v && forall i :: 0 <= i < |t| ==> OneDown(way[i], t[i], way[i + 1])
  }

  lemma {:induction false} ResolveLeads(a: Json, t: Tokens)
    requires Resolve(a, t) != []
    ensures |Resolve(a, t)| == 1 && Leads(a, t, Resolve(a, t)[0])
    decreases a
  {
    if t == [] {
      var way := [a];
      assert way[0] == a;
    } else {
      var down := if a.Obj? then a.fields[t[0]] else a.items[IndexOf(a, t[0])];
      ResolveLeads(down, t[1..]);
      var v := Resolve(down, t[1..])[0];
      var way: seq<Json> :|
        |way| == |t[1..]| + 1 && way[0] == down && way[|t[1..]|] == v && forall i :: 0 <= i < |t[1..]| ==> OneDown(way[i], t[1..][i], way[i + 1]);
      var longer := [a] + way;
      forall i | 0 <= i < |t| ensures OneDown(longer[i], t[i], longer[i + 1]) {
        if i > 0 {
          assert OneDown(way[i - 1], t[1..][i - 1], way[i - 1 + 1]);
        }
      }
      assert longer[0] == a && longer[|t|] == v;
    }
  }

  lemma {:induction false} LeadsResolved(a: Json, t: Tokens, v: Json, way: seq<Json>)
    requires |way| == |t| + 1 && way[0] == a && way[|t|] == v && forall i :: 0 <= i < |t| ==> OneDown(way[i], t[i], way[i + 1])
    ensures Resolve(a, t) == [v]
    decreases |t|
  {
    if t != [] {
      assert OneDown(way[0], t[0], way[0 + 1]);
      if a.Arr? {
        IndexIsOne(a, t[0]);
      }
      forall i | 0 <= i < |t[1..]| ensures OneDown(way[1..][i], t[1..][i], way[1..][i + 1]) {
        assert OneDown(way[i + 1], t[i + 1], way[i + 1 + 1]);
      }
      LeadsResolved(way[1], t[1..], v, way[1..]);
    }
  }

  lemma ResolveIs(a: Json, t: Tokens, v: Json)
    ensures Leads(a, t, v) <==> Resolve(a, t) == [v]
  {
    if Leads(a, t, v) {
      var way: seq<Json> :|
        |way| == |t| + 1 && way[0] == a && way[|t|] == v && forall i :: 0 <= i < |t| ==> OneDown(way[i], t[i], way[i + 1]);
      LeadsResolved(a, t, v, way);
    }
    if Resolve(a, t) == [v] {
      ResolveLeads(a, t);
    }
  }

  /** At a genuine difference the documents do differ: the tokens lead to a value in one of them, and where they lead
      to one in both the two are unequal. */
  lemma DiffersThere(a: Json, b: Json, t: Tokens)
    requires t in Diff(a, b)
    ensures exists v :: Leads(a, t, v) || Leads(b, t, v)
    ensures forall v, w :: Leads(a, t, v) && Leads(b, t, w) ==> !Alike(v, w)
  {
    DiffIsExact(a, b, t);
    GenuineDiffers(a, b, t);
    if Resolve(a, t) != [] {
      ResolveLeads(a, t);
    } else {
      ResolveLeads(b, t);
    }
    forall v, w | Leads(a, t, v) && Leads(b, t, w) ensures !Alike(v, w) {
      ResolveIs(a, t, v);
      ResolveIs(b, t, w);
      EqualIsAlike(v, w);
    }
  }

  /** At a genuine difference the documents do differ: one has no value there, or the two values are unequal. */
  lemma {:induction false} GenuineDiffers(a: Json, b: Json, t: Tokens)
    requires Genuine(a, b, t)
    ensures Resolve(a, t) != [] || Resolve(b, t) != []
    ensures Resolve(a, t) != [] && Resolve(b, t) != [] ==> !Equal(Resolve(a, t)[0], Resolve(b, t)[0])
    decreases a
  {
    if a.Obj? && b.Obj? {
      if t[0] in a.fields && t[0] in b.fields {
        GenuineDiffers(a.fields[t[0]], b.fields[t[0]], t[1..]);
      } else {
        assert t[1..] == [];
      }
    } else if a.Arr? && b.Arr? {
      var i: nat :| i < Max(|a.items|, |b.items|) && GenuineItem(a, b, t, i);
      IndexIsOne(a, t[0]);
      IndexIsOne(b, t[0]);
      if i < |a.items| && i < |b.items| {
        GenuineDiffers(a.items[i], b.items[i], t[1..]);
      } else {
        NoOtherIndex(if i < |a.items| then b else a, i);
        assert t[1..] == [];
      }
    } else {
      LeafIsAlike(a, b);
    }
  }

  lemma NoOtherIndex(a: Json, i: nat)
    requires a.Arr? && i >= |a.items|
    ensures forall j: nat :: j < |a.items| ==> Decimal(j) != Decimal(i)
  {
    forall j: nat | j < |a.items| ensures Decimal(j) != Decimal(i) {
      if Decimal(j) == Decimal(i) {
        DecimalInjective(j, i);
      }
    }
  }

  // ------------------------------------------------------------- no path twice

  ghost predicate Apart(paths: seq<Tokens>, i: int, j: int) {
    0 <= i < j < |paths| ==> !(paths[i] <= paths[j]) && !(paths[j] <= paths[i])
  }

  /** No path of the list is a prefix of another, nor equal to it. */
  ghost predicate PrefixFree(paths: seq<Tokens>) {
    forall i, j {:trigger Apart(paths, i, j)} :: Apart(paths, i, j)
  }

  lemma PrefixUnder(token: string, s: Tokens, t: Tokens)
    ensures [token] + s <= [token] + t <==> s <= t
  {
    var x, y := [token] + s, [token] + t;
    assert x[1..] == s && y[1..] == t;
    if x <= y {
      assert s == y[1..][..|s|];
    }
  }

  lemma PrefixedFree(token: string, paths: seq<Tokens>)
    requires PrefixFree(paths)
    ensures PrefixFree(Prefixed(token, paths))
  {
    forall i, j ensures Apart(Prefixed(token, paths), i, j) {
      assert Apart(paths, i, j);
      if 0 <= i < j < |paths| {
        PrefixUnder(token, paths[i], paths[j]);
        PrefixUnder(token, paths[j], paths[i]);
      }
    }
  }

  /** Lists whose paths start differently can be put together. */
  lemma JoinFree(a: seq<Tokens>, b: seq<Tokens>)
    requires PrefixFree(a) && PrefixFree(b)
    requires forall s, t :: s in a && t in b ==> s != [] && t != [] && s[0] != t[0]
    ensures PrefixFree(a + b)
  {
    forall i, j ensures Apart(a + b, i, j) {
      assert Apart(a, i, j) && Apart(b, i - |a|, j - |a|);
      if 0 <= i < |a| <= j < |a + b| {
        var s, t := a[i], b[j - |a|];
        assert s in a && t in b;
      }
    }
  }

  lemma SingleFree(t: Tokens)
    ensures PrefixFree([t]) && PrefixFree([])
  {
    forall i, j ensures Apart([t], i, j) {}
  }

  /** The paths of one comparison are pairwise distinct, and none leads through another. */
  lemma {:induction false} DiffPrefixFree(a: Json, b: Json)
    ensures PrefixFree(Diff(a, b))
    decreases a, 1, 0
  {
    if a.Obj? && b.Obj? {
      FieldsPrefixFree(a, b, KeysOf(a, b));
    } else if a.Arr? && b.Arr? {
      ItemsPrefixFree(a, b, Max(|a.items|, |b.items|));
    } else {
      SingleFree([]);
    }
  }

  lemma {:induction false} FieldPrefixFree(a: Json, b: Json, k: string)
    requires a.Obj? && b.Obj?
    ensures PrefixFree(DiffField(a, b, k))
    decreases a, 0, 0
  {
    if k in a.fields && k in b.fields {
      DiffPrefixFree(a.fields[k], b.fields[k]);
      PrefixedFree(k, Diff(a.fields[k], b.fields[k]));
    } else {
      SingleFree([k]);
    }
  }

  lemma {:induction false} FieldsPrefixFree(a: Json, b: Json, keys: seq<string>)
    requires a.Obj? && b.Obj? && forall i, j :: 0 <= i < j < |keys| ==> keys[i] != keys[j]
    ensures PrefixFree(DiffFields(a, b, keys))
    decreases a, 0, |keys|
  {
    if keys == [] {
      SingleFree([]);
    } else {
      var n := |keys| - 1;
      FieldsPrefixFree(a, b, keys[..n]);
      FieldPrefixFree(a, b, keys[n]);
      forall s, t | s in DiffFields(a, b, keys[..n]) && t in DiffField(a, b, keys[n]) ensures s != [] && t != [] && s[0] != t[0] {
        var k := FieldOrigin(a, b, keys[..n], s);
        FieldHead(a, b, k, s);
        FieldHead(a, b, keys[n], t);
        var i :| 0 <= i < n && keys[..n][i] == k;
      }
      JoinFree(DiffFields(a, b, keys[..n]), DiffField(a, b, keys[n]));
    }
  }

  lemma {:induction false} ItemPrefixFree(a: Json, b: Json, i: nat)
    requires a.Arr? && b.Arr?
    ensures PrefixFree(DiffItem(a, b, i))
    decreases a, 0, 0
  {
    if i < |a.items| && i < |b.items| {
      DiffPrefixFree(a.items[i], b.items[i]);
      PrefixedFree(Decimal(i), Diff(a.items[i], b.items[i]));
    } else {
      SingleFree([Decimal(i)]);
    }
  }

  lemma {:induction false} ItemsPrefixFree(a: Json, b: Json, n: nat)
    requires a.Arr? && b.Arr?
    ensures PrefixFree(DiffItems(a, b, n))
    decreases a, 0, n
  {
    if n == 0 {
      SingleFree([]);
    } else {
      ItemsPrefixFree(a, b, n - 1);
      ItemPrefixFree(a, b, n - 1);
      var before, last := DiffItems(a, b, n - 1), DiffItem(a, b, n - 1);
      forall s, t | s in before && t in last ensures s != [] && t != [] && s[0] != t[0] {
        var i := ItemOrigin(a, b, n - 1, s);
        ItemHead(a, b, i, s);
        ItemHead(a, b, n - 1, t);
        if Decimal(i) == Decimal(n - 1) {
          DecimalInjective(i, n - 1);
        }
      }
      JoinFree(before, last);
    }
  }

  // --------------------------------------------------------------- pointers as text

  /** `str.replace` of one character. */
  function Replace(s: string, c: char, with: string): string {
    if s == "" then "" else (if s[0] == c then with else [s[0]]) + Replace(s[1..], c, with)
  }

  /** `_json_pointer_token` */
  function Escape(s: string): string {
    Replace(Replace(s, '~', "~0"), '/', "~1")
  }

  /** Reading a token back, by section 4 of RFC 6901. */
  function Unescape(s: string): string {
    if |s| >= 2 && s[0] == '~' && (s[1] == '0' || s[1] == '1')
    then [if s[1] == '0' then '~' else '/'] + Unescape(s[2..])
    else if s == "" then "" else [s[0]] + Unescape(s[1..])
  }

  lemma ReplaceCons(head: char, rest: string, c: char, with: string)
    ensures Replace([head] + rest, c, with) == (if head == c then with else [head]) + Replace(rest, c, with)
  {
    assert ([head] + rest)[1..] == rest;
  }

  function EscapeChar(c: char): string {
    if c == '~' then "~0" else if c == '/' then "~1" else [c]
  }

  /** The two replacements together escape character by character. */
  lemma EscapeStep(s: string)
    requires s != ""
    ensures Escape(s) == EscapeChar(s[0]) + Escape(s[1..])
  {
    var inner := Replace(s[1..], '~', "~0");
    if s[0] == '~' {
      assert "~0" + inner == ['~'] + (['0'] + inner);
      ReplaceCons('~', ['0'] + inner, '/', "~1");
      ReplaceCons('0', inner, '/', "~1");
      assert ['~'] + (['0'] + Escape(s[1..])) == "~0" + Escape(s[1..]);
    } else {
      ReplaceCons(s[0], inner, '/', "~1");
    }
  }

  /** Escaping loses nothing, and leaves no separator in a token. */
  lemma {:induction false} EscapeRoundTrip(s: string)
    ensures Unescape(Escape(s)) == s && '/' !in Escape(s)
  {
    if s == "" {
      assert Escape("") == "";
    } else {
      EscapeRoundTrip(s[1..]);
      EscapeStep(s);
      var e, rest := EscapeChar(s[0]), Escape(s[1..]);
      if s[0] == '~' || s[0] == '/' {
        assert (e + rest)[2..] == rest;
      } else {
        assert (e + rest)[1..] == rest;
      }
      assert s == [s[0]] + s[1..];
    }
  }

  function Pointer(t: Tokens): string {
    if t == [] then "" else "/" + Escape(t[0]) + Pointer(t[1..])
  }

  /** A path as the source writes it: the whole document is "/", not the empty pointer of RFC 6901. */
  function PathText(t: Tokens): string {
    if t == [] then "/" else Pointer(t)
  }

  /** Up to the next separator. */
  function TokenEnd(s: string): (n: nat)
    ensures n <= |s|
  {
    if s == "" || s[0] == '/' then 0 else 1 + TokenEnd(s[1..])
  }

  lemma {:induction false} TokenEndOf(e: string, rest: string)
    requires '/' !in e && (rest == "" || rest[0] == '/')
    ensures TokenEnd(e + rest) == |e|
  {
    if e != "" {
      assert (e + rest)[1..] == e[1..] + rest;
      TokenEndOf(e[1..], rest);
    } else {
      assert e + rest == rest;
    }
  }

  lemma SlashFirst(e: string, tail: string)
    ensures var p := "/" + e + tail; p != "" && p[0] == '/' && p[1..] == e + tail
  {
    assert "/" + e + tail == "/" + (e + tail);
  }

  /** The first token and the rest, read off a pointer. */
  lemma PointerParts(t: Tokens)
    requires t != []
    ensures Pointer(t) != "" && Pointer(t)[0] == '/'
    ensures var rest := Pointer(t)[1..]; var n := TokenEnd(rest);
            Unescape(rest[..n]) == t[0] && rest[n..] == Pointer(t[1..])
  {
    var e, tail := Escape(t[0]), Pointer(t[1..]);
    EscapeRoundTrip(t[0]);
    SlashFirst(e, tail);
    TokenEndOf(e, tail);
    assert (e + tail)[..|e|] == e && (e + tail)[|e|..] == tail;
  }

  lemma {:induction false} PointerInjective(t: Tokens, u: Tokens)
    requires Pointer(t) == Pointer(u)
    ensures t == u
  {
    if t != [] {
      PointerParts(t);
    }
    if u != [] {
      PointerParts(u);
    }
    if t != [] && u != [] {
      PointerInjective(t[1..], u[1..]);
      assert t == [t[0]] + t[1..] && u == [u[0]] + u[1..];
    }
  }

  /** The text of a path tells the path, except that the whole document and an empty key look the same. */
  lemma PathTextTells(t: Tokens, u: Tokens)
    ensures PathText(t) == PathText(u) <==> t == u || {t, u} == {[], [""]}
  {
    assert Escape("") == "" && Pointer([""]) == "/" + Pointer([""][1..]) && [""][1..] == [];
    if PathText(t) == PathText(u) && t != u {
      if t == [] {
        PointerInjective([""], u);
      } else if u == [] {
        PointerInjective([""], t);
      } else {
        PointerInjective(t, u);
      }
    }
    if {t, u} == {[], [""]} && t != u {
      assert t in {[], [""]} && u in {[], [""]};
    }
  }

  lemma RootIsAbove(t: Tokens, u: Tokens)
    ensures {t, u} == {[], [""]} ==> t <= u || u <= t
  {
    if {t, u} == {[], [""]} {
      assert [] in {t, u};
    }
  }

  /** Within one result the texts are distinct all the same. */
  lemma TextsDistinct(a: Json, b: Json)
    ensures forall i, j :: 0 <= i < j < |Diff(a, b)| ==> PathText(Diff(a, b)[i]) != PathText(Diff(a, b)[j])
  {
    var paths := Diff(a, b);
    DiffPrefixFree(a, b);
    forall i, j | 0 <= i < j < |paths| ensures PathText(paths[i]) != PathText(paths[j]) {
      assert Apart(paths, i, j);
      PathTextTells(paths[i], paths[j]);
      RootIsAbove(paths[i], paths[j]);
    }
  }

  // ------------------------------------------------------------------ the code

  /** The text of a path below a path text. */
  function Below(path: string, t: Tokens): string {
    if t == [] then (if path == "" then "/" else path) else path + Pointer(t)
  }

  function Texts(path: string, paths: seq<Tokens>): seq<string> {
    seq(|paths|, i requires 0 <= i < |paths| => Below(path, paths[i]))
  }

  lemma TextBelow(path: string, token: string, t: Tokens)
    ensures Below(path, [token] + t) == Below(path + "/" + Escape(token), t)
  {
    assert ([token] + t)[1..] == t;
    var child := path + "/" + Escape(token);
    assert path + ("/" + Escape(token) + Pointer(t)) == child + Pointer(t);
    assert child + "" == child && |child| > 0;
  }

  lemma TextsBelow(path: string, token: string, paths: seq<Tokens>)
    ensures Texts(path, Prefixed(token, paths)) == Texts(path + "/" + Escape(token), paths)
  {
    forall i | 0 <= i < |paths| ensures Texts(path, Prefixed(token, paths))[i] == Texts(path + "/" + Escape(token), paths)[i] {
      TextBelow(path, token, paths[i]);
    }
  }

  lemma TextsConcat(path: string, a: seq<Tokens>, b: seq<Tokens>)
    ensures Texts(path, a + b) == Texts(path, a) + Texts(path, b)
  {}

  lemma TextOfOne(path: string, token: string)
    ensures Texts(path, [[token]]) == [path + "/" + Escape(token)]
  {
    assert [token][1..] == [];
    assert Pointer([token]) == "/" + Escape(token);
    assert path + ("/" + Escape(token)) == path + "/" + Escape(token);
  }

  /** What one key adds to the texts. */
  lemma FieldTexts(path: string, a: Json, b: Json, keys: seq<string>, i: nat)
    requires a.Obj? && b.Obj? && i < |keys|
    ensures var key := keys[i]; var child := path + "/" + Escape(key);
            Texts(path, DiffFields(a, b, keys[..i + 1])) == Texts(path, DiffFields(a, b, keys[..i])) +
            if key in a.fields && key in b.fields then Texts(child, Diff(a.fields[key], b.fields[key])) else [child]
  {
    var key := keys[i];
    assert keys[..i + 1][..i] == keys[..i];
    TextsConcat(path, DiffFields(a, b, keys[..i]), DiffField(a, b, key));
    if key in a.fields && key in b.fields {
      TextsBelow(path, key, Diff(a.fields[key], b.fields[key]));
    } else {
      TextOfOne(path, key);
    }
  }

  /** What one index adds to the texts. */
  lemma ItemTexts(path: string, a: Json, b: Json, i: nat)
    requires a.Arr? && b.Arr?
    ensures var child := path + "/" + Decimal(i);
            Texts(path, DiffItems(a, b, i + 1)) == Texts(path, DiffItems(a, b, i)) +
            if i < |a.items| && i < |b.items| then Texts(child, Diff(a.items[i], b.items[i])) else [child]
  {
    IndexIsPlain(i);
    TextsConcat(path, DiffItems(a, b, i), DiffItem(a, b, i));
    if i < |a.items| && i < |b.items| {
      TextsBelow(path, Decimal(i), Diff(a.items[i], b.items[i]));
    } else {
      TextOfOne(path, Decimal(i));
    }
  }

  /** A path is written as a slash and the escaped token for each of its tokens, the empty path as a slash. */
  lemma PathTextIs(token: string, t: Tokens)
    ensures PathText([]) == "/"
    ensures PathText([token] + t) == "/" + Escape(token) + (if |t| == 0 then "" else PathText(t))
  {
    assert ([token] + t)[1..] == t && ([token] + t)[0] == token;
    assert Pointer([token] + t) == "/" + Escape(token) + Pointer(t);
  }

  lemma TextAt(paths: seq<Tokens>, i: nat)
    requires i < |paths|
    ensures Texts("", paths)[i] == PathText(paths[i])
  {
    assert "" + Pointer(paths[i]) == Pointer(paths[i]);
  }

  lemma PathIsWritten(a: Json, b: Json, t: Tokens)
    requires Genuine(a, b, t)
    ensures PathText(t) in Texts("", Diff(a, b))
  {
    DiffIsExact(a, b, t);
    var paths := Diff(a, b);
    var i :| 0 <= i < |paths| && paths[i] == t;
    TextAt(paths, i);
    assert Texts("", paths)[i] == PathText(t);
  }

  lemma WrittenIsPath(a: Json, b: Json, d: string) returns (t: Tokens)
    requires d in Texts("", Diff(a, b))
    ensures Genuine(a, b, t) && d == PathText(t)
  {
    var paths := Diff(a, b);
    var i :| 0 <= i < |paths| && Texts("", paths)[i] == d;
    TextAt(paths, i);
    t := paths[i];
    DiffIsExact(a, b, t);
  }

  lemma WrittenPaths(a: Json, b: Json)
    ensures forall t :: Genuine(a, b, t) ==> PathText(t) in Texts("", Diff(a, b))
    ensures forall d :: d in Texts("", Diff(a, b)) ==> exists t :: Genuine(a, b, t) && d == PathText(t)
  {
    forall t | Genuine(a, b, t) ensures PathText(t) in Texts("", Diff(a, b)) {
      PathIsWritten(a, b, t);
    }
    forall d | d in Texts("", Diff(a, b)) ensures exists t :: Genuine(a, b, t) && d == PathText(t) {
      var t := WrittenIsPath(a, b, d);
    }
  }

  /** `semantic_difference_paths` */
  method SemanticDifferencePaths(a: Json, b: Json, path: string) returns (differences: seq<string>)
    ensures differences == Texts(path, Diff(a, b))
    ensures path == "" ==> forall t :: Genuine(a, b, t) ==> PathText(t) in differences
    ensures path == "" ==> forall d :: d in differences ==> exists t :: Genuine(a, b, t) && d == PathText(t)
    decreases a
  {
    differences := [];
    if a.Obj? && b.Obj? {
      var keys := KeysOf(a, b);
      for i := 0 to |keys|
        invariant differences == Texts(path, DiffFields(a, b, keys[..i]))
      {
        var key := keys[i];
        var child := path + "/" + Escape(key);
        FieldTexts(path, a, b, keys, i);
        if key !in a.fields || key !in b.fields {
          differences := differences + [child];
        } else {
          var more := SemanticDifferencePaths(a.fields[key], b.fields[key], child);
          differences := differences + more;
        }
      }
      assert keys[..|keys|] == keys;
    } else if a.Arr? && b.Arr? {
      for i := 0 to Max(|a.items|, |b.items|)
        invariant differences == Texts(path, DiffItems(a, b, i))
      {
        var child := path + "/" + Decimal(i);
        ItemTexts(path, a, b, i);
        if i >= |a.items| || i >= |b.items| {
          differences := differences + [child];
        } else {
          var more := SemanticDifferencePaths(a.items[i], b.items[i], child);
          differences := differences + more;
        }
      }
    } else if !LeafEqual(a, b) {
      differences := [if path == "" then "/" else path];
    }
    WrittenPaths(a, b);
  }

  /** An index needs no escaping, and the source does not escape it. */
  lemma IndexIsPlain(i: nat)
    ensures Escape(Decimal(i)) == Decimal(i)
  {
    NothingToReplace(Decimal(i), '~', "~0");
    NothingToReplace(Decimal(i), '/', "~1");
  }

  lemma {:induction false} NothingToReplace(s: string, c: char, with: string)
    requires c !in s
    ensures Replace(s, c, with) == s
  {
    if s != "" {
      NothingToReplace(s[1..], c, with);
      assert s == [s[0]] + s[1..];
    }
  }

  // ------------------------------------------------------- one device after a rollback

  datatype Tag = Same | Replaced | Deleted | Inserted

  /** One opcode of the sequence matcher: a stretch of lines before, and one after. */
  datatype Opcode = Opcode(tag: Tag, i1: nat, i2: nat, j1: nat, j2: nat)

  /** What a sequence matcher promises: its opcodes cover both lists in order, equal stretches are equal,
      and the others take at least one line from where their tag says. */
  ghost predicate Describes(ops: seq<Opcode>, before: seq<string>, after: seq<string>) {
    && (ops == [] ==> before == [] && after == [])
    && (ops != [] ==> ops[0].i1 == 0 && ops[0].j1 == 0)
    && (ops != [] ==> ops[|ops| - 1].i2 == |before| && ops[|ops| - 1].j2 == |after|)
    && (forall k :: 0 <= k < |ops| ==> OpcodeFits(ops[k], before, after))
    && (forall k :: 0 <= k < |ops| - 1 ==> ops[k].i2 == ops[k + 1].i1 && ops[k].j2 == ops[k + 1].j1)
  }

  ghost predicate OpcodeFits(o: Opcode, before: seq<string>, after: seq<string>) {
    && o.i1 <= o.i2 <= |before| && o.j1 <= o.j2 <= |after|
    && match o.tag
       case Same => before[o.i1..o.i2] == after[o.j1..o.j2]
       case Replaced => o.i1 < o.i2 && o.j1 < o.j2
       case Deleted => o.i1 < o.i2 && o.j1 == o.j2
       case Inserted => o.i1 == o.i2 && o.j1 < o.j2
  }

  /** One of the first `n` opcodes deletes or replaces line `i` of what was before ... */
  ghost predicate GoneBy(ops: seq<Opcode>, n: nat, i: int) {
    exists k :: 0 <= k < n && k < |ops| && (ops[k].tag == Deleted || ops[k].tag == Replaced) && ops[k].i1 <= i < ops[k].i2
  }

  /** ... or inserts line `j` of what is there after, or puts it in place of another. */
  ghost predicate NewBy(ops: seq<Opcode>, n: nat, j: int) {
    exists k :: 0 <= k < n && k < |ops| && (ops[k].tag == Inserted || ops[k].tag == Replaced) && ops[k].j1 <= j < ops[k].j2
  }

  ghost function GoneLines(ops: seq<Opcode>, n: nat, before: seq<string>): set<int> {
    set i | 0 <= i < |before| && GoneBy(ops, n, i)
  }

  ghost function NewLines(ops: seq<Opcode>, n: nat, after: seq<string>): set<int> {
    set j | 0 <= j < |after| && NewBy(ops, n, j)
  }

  lemma {:induction false} StretchesInOrder(ops: seq<Opcode>, before: seq<string>, after: seq<string>, j: nat, k: nat)
    requires Describes(ops, before, after) && j < k < |ops|
    ensures ops[j].i2 <= ops[k].i1 && ops[j].j2 <= ops[k].j1
  {
    var last := k - 1;
    assert ops[last].i2 == ops[last + 1].i1 && ops[last].j2 == ops[last + 1].j1;
    if j < last {
      StretchesInOrder(ops, before, after, j, last);
      assert OpcodeFits(ops[last], before, after);
    }
  }

  /** The lines counted so far lie below those of the next stretch, so its own add up. */
  lemma {:induction false} OneMoreStretch(done: set<int>, all: set<int>, a: nat, b: nat)
    requires a <= b && (forall i :: i in done ==> i < a) && forall i :: i in all <==> i in done || a <= i < b
    ensures |all| == |done| + (b - a)
    decreases b
  {
    if a < b {
      OneMoreStretch(done, all - {b - 1}, a, b - 1);
    } else {
      forall i ensures i in all <==> i in done {}
      assert all == done;
    }
  }

  lemma GoneNext(ops: seq<Opcode>, before: seq<string>, after: seq<string>, k: nat)
    requires Describes(ops, before, after) && k < |ops|
    ensures |GoneLines(ops, k + 1, before)| == |GoneLines(ops, k, before)| +
      if ops[k].tag == Deleted || ops[k].tag == Replaced then ops[k].i2 - ops[k].i1 else 0
  {
    var o, done, all := ops[k], GoneLines(ops, k, before), GoneLines(ops, k + 1, before);
    assert OpcodeFits(o, before, after);
    forall j | 0 <= j < k ensures ops[j].i2 <= o.i1 {
      StretchesInOrder(ops, before, after, j, k);
    }
    var takes := o.tag == Deleted || o.tag == Replaced;
    forall i ensures i in all <==> i in done || (takes && o.i1 <= i < o.i2) {
      var next := k + 1;
      assert GoneBy(ops, next, i) <==> GoneBy(ops, k, i) || (takes && o.i1 <= i < o.i2);
    }
    OneMoreStretch(done, all, o.i1, if takes then o.i2 else o.i1);
  }

  lemma NewNext(ops: seq<Opcode>, before: seq<string>, after: seq<string>, k: nat)
    requires Describes(ops, before, after) && k < |ops|
    ensures |NewLines(ops, k + 1, after)| == |NewLines(ops, k, after)| +
      if ops[k].tag == Inserted || ops[k].tag == Replaced then ops[k].j2 - ops[k].j1 else 0
  {
    var o, done, all := ops[k], NewLines(ops, k, after), NewLines(ops, k + 1, after);
    assert OpcodeFits(o, before, after);
    forall j | 0 <= j < k ensures ops[j].j2 <= o.j1 {
      StretchesInOrder(ops, before, after, j, k);
    }
    var takes := o.tag == Inserted || o.tag == Replaced;
    forall i ensures i in all <==> i in done || (takes && o.j1 <= i < o.j2) {
      var next := k + 1;
      assert NewBy(ops, next, i) <==> NewBy(ops, k, i) || (takes && o.j1 <= i < o.j2);
    }
    OneMoreStretch(done, all, o.j1, if takes then o.j2 else o.j1);
  }

  /** The lines counted account for the lengths, and if there are none both lists are the same so far. */
  lemma {:induction false} CountsBalance(ops: seq<Opcode>, before: seq<string>, after: seq<string>, n: nat)
    requires Describes(ops, before, after) && 0 < n <= |ops|
    ensures var o := ops[n - 1];
      && o.i2 <= |before| && o.j2 <= |after|
      && o.i2 + |NewLines(ops, n, after)| == o.j2 + |GoneLines(ops, n, before)|
      && (|NewLines(ops, n, after)| == 0 && |GoneLines(ops, n, before)| == 0 ==> before[..o.i2] == after[..o.j2])
  {
    var k := n - 1;
    var o := ops[k];
    assert OpcodeFits(o, before, after);
    GoneNext(ops, before, after, k);
    NewNext(ops, before, after, k);
    if k > 0 {
      CountsBalance(ops, before, after, k);
      assert ops[k - 1].i2 == ops[k - 1 + 1].i1 && ops[k - 1].j2 == ops[k - 1 + 1].j1;
    } else {
      assert GoneLines(ops, 0, before) == {} && NewLines(ops, 0, after) == {};
    }
    assert before[..o.i2] == before[..o.i1] + before[o.i1..o.i2];
    assert after[..o.j2] == after[..o.j1] + after[o.j1..o.j2];
  }

  /** `raw_config_diff_counts`: the lines that the opcodes delete or replace, and insert or put in their place. They
      account for the lengths, and when there are none the configurations are equal. */
  method RawConfigDiffCounts(ops: seq<Opcode>, before: seq<string>, after: seq<string>) returns (added: nat, removed: nat)
    requires Describes(ops, before, after)
    ensures |before| + added == |after| + removed
    ensures added == 0 && removed == 0 ==> before == after
    ensures removed == |set i | 0 <= i < |before| && GoneBy(ops, |ops|, i)|
    ensures added == |set j | 0 <= j < |after| && NewBy(ops, |ops|, j)|
  {
    added, removed := 0, 0;
    assert GoneLines(ops, 0, before) == {} && NewLines(ops, 0, after) == {};
    for k := 0 to |ops|
      invariant removed == |GoneLines(ops, k, before)| && added == |NewLines(ops, k, after)|
    {
      var o := ops[k];
      assert OpcodeFits(o, before, after);
      GoneNext(ops, before, after, k);
      NewNext(ops, before, after, k);
      if o.tag == Replaced || o.tag == Deleted {
        removed := removed + (o.i2 - o.i1);
      }
      if o.tag == Replaced || o.tag == Inserted {
        added := added + (o.j2 - o.j1);
      }
    }
    if ops != [] {
      CountsBalance(ops, before, after, |ops|);
      assert before[..|before|] == before && after[..|after|] == after;
    }
  }

  datatype DeviceVerification = DeviceVerification(rawEqual: bool, semanticEqual: bool, added: nat, removed: nat, paths: seq<string>)

  /** `build_device_verification`; a missing semantic model is Null. */
  method BuildDeviceVerification(beforeRaw: seq<string>, rollbackRaw: seq<string>, before: Json, rollback: Json, ops: seq<Opcode>)
    returns (v: DeviceVerification)
    requires Describes(ops, beforeRaw, rollbackRaw)
    ensures v.rawEqual <==> beforeRaw == rollbackRaw
    ensures v.semanticEqual <==> !before.Null? && Alike(before, rollback)
    ensures v.semanticEqual ==> v.paths == []
    ensures v.paths == [] <==> v.semanticEqual || (before.Null? && rollback.Null?)
    ensures v.added == 0 && v.removed == 0 ==> v.rawEqual
  {
    EqualIsAlike(before, rollback);
    var semanticEqual := !before.Null? && Equal(before, rollback);
    var added, removed := RawConfigDiffCounts(ops, beforeRaw, rollbackRaw);
    var paths := [];
    if !semanticEqual {
      paths := SemanticDifferencePaths(before, rollback, "");
      EmptyMeansEqual(before, rollback);
      assert before.Null? ==> (Alike(before, rollback) <==> rollback.Null?);
      assert |Texts("", Diff(before, rollback))| == |Diff(before, rollback)|;
    }
    v := DeviceVerification(beforeRaw == rollbackRaw, semanticEqual, added, removed, paths);
  }
}
