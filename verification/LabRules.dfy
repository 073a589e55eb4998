// alred/lab_transform.py: what a lab configuration must be, said of the source
// sections and the policy themselves. A section is its list of lines; the
// regular expressions are functions on one line.
module LabRules {

  type Section = seq<string>

  datatype Option<+T> = None | Some(value: T)

  datatype Category = Ntp | Aaa | Snmp | Logging | Dns | Crypto | Users | AccessClass

  /** The regular expressions, on a header or a line of a section. */
  datatype Rules = Rules(
    category: string -> Option<Category>,        // all categories but access lists
    lineVty: string -> bool,
    accessClass: string -> bool,
    accessClassName: string -> Option<string>,   // in an access-class line
    accessListName: string -> Option<string>,    // in the header of an access list
    ntpServer: string -> bool)

  /** What the expressions of the source have in common. */
  ghost predicate RulesFit(r: Rules) {
    && (forall h :: r.category(h).Some? ==> r.category(h).value != AccessClass && !r.lineVty(h))
    && (forall l :: r.accessClassName(l).Some? ==> r.accessClass(l))
    && (forall h :: r.ntpServer(h) ==> r.category(h) == Some(Ntp))
  }

  datatype Action = Remove | Replace | Preserve

  /** A service policy and what `_render_<service>` makes of it. */
  datatype Service = Service(action: Action, sections: seq<Section>)

  datatype Policy = Policy(
    keepNtp: bool,             // services.ntp.action == "preserve"
    logging: Service, dns: Service, aaa: Service, snmp: Service,
    keepSourceUsers: bool,     // source_local_users.action == "preserve"
    userLines: seq<string>,
    access: Action,
    accessList: Section,
    attachLine: string)        // the access-class line of a replaced policy

  /** An output section with where it comes from: kept, or generated with an insertion index. */
  datatype Item = Old(section: Section) | New(index: nat, category: Category, section: Section)

  function Sections(items: seq<Item>): seq<Section> {
    seq(|items|, i requires 0 <= i < |items| => items[i].section)
  }

  /** The kept sections among the items, in order. */
  function Olds(items: seq<Item>): seq<Section> {
    if items == [] then []
    else Olds(items[..|items| - 1]) + if items[|items| - 1].Old? then [items[|items| - 1].section] else []
  }

  function News(items: seq<Item>): seq<Item> {
    if items == [] then []
    else News(items[..|items| - 1]) + if items[|items| - 1].New? then [items[|items| - 1]] else []
  }

  function Min(a: nat, b: nat): nat { if a <= b then a else b }

  /** How many kept sections precede position `at`. */
  function KeptBefore(items: seq<Item>, at: nat): nat
    requires at <= |items|
  {
    |Olds(items[..at])|
  }

  // -------------------------------------------------------- what must not reach the lab

  ghost predicate Increasing(ks: seq<nat>) {
    forall i, j :: 0 <= i < j < |ks| ==> ks[i] < ks[j]
  }

  /** A `line vty` section names the access list. */
  ghost predicate VtyNames(r: Rules, sections: seq<Section>, name: string) {
    exists s, l :: s in sections && s != [] && r.lineVty(s[0]) && l in s[1..] && r.accessClassName(l) == Some(name)
  }

  /** The section goes, as one of this category. */
  ghost predicate GoesAs(r: Rules, p: Policy, sections: seq<Section>, s: Section, c: Category) {
    s != [] &&
    match r.category(s[0])
    case Some(Ntp) => c == Ntp && !p.keepNtp
    case Some(Users) => c == Users && !p.keepSourceUsers
    case Some(Logging) => c == Logging && (p.logging.action == Remove || p.logging.action == Replace)
    case Some(Dns) => c == Dns && (p.dns.action == Remove || p.dns.action == Replace)
    case Some(Aaa) => c == Aaa && (p.aaa.action == Remove || p.aaa.action == Replace)
    case Some(Snmp) => c == Snmp && (p.snmp.action == Remove || p.snmp.action == Replace)
    case Some(other) => c == other
    case None =>
      && c == AccessClass && (p.access == Remove || p.access == Replace)
      && r.accessListName(s[0]).Some? && VtyNames(r, sections, r.accessListName(s[0]).value)
  }

  ghost predicate Stays(r: Rules, p: Policy, sections: seq<Section>, k: int) {
    0 <= k < |sections| && sections[k] != [] && forall c :: !GoesAs(r, p, sections, sections[k], c)
  }

  /** What is left of a section that stays: of a `line vty` section the header and, in order, the lines that set no
      access class, with the new access class behind them where there is one; the whole of any other section. */
  ghost predicate Leaves(r: Rules, p: Policy, s: Section, t: Section) {
    s != [] &&
    if !r.lineVty(s[0]) || p.access == Preserve then t == s
    else exists ls: seq<nat> ::
      && Increasing(ls) && (forall k: nat :: k in ls <==> k < |s| && (k == 0 || !r.accessClass(s[k])))
      && |t| == |ls| + (if p.access == Replace then 1 else 0)
      && (forall i :: 0 <= i < |ls| ==> ls[i] < |s| && t[i] == s[ls[i]])
      && (p.access == Replace ==> t[|ls|] == p.attachLine)
  }

  /** The kept sections are, in order, what is left of the sections that stay; they have the indexes `ks`. */
  ghost predicate KeptAre(r: Rules, p: Policy, sections: seq<Section>, ks: seq<nat>, kept: seq<Section>) {
    && Increasing(ks) && (forall k: nat :: k in ks <==> Stays(r, p, sections, k))
    && |kept| == |ks| && forall i :: 0 <= i < |ks| ==> ks[i] < |sections| && Leaves(r, p, sections[ks[i]], kept[i])
  }

  // ------------------------------------------------------------------ what is inserted

  /** The `j`-th section that the policy asks for in this category. */
  ghost predicate Asked(p: Policy, ntpLines: seq<string>, c: Category, j: nat, s: Section) {
    match c
    case Ntp => j < |ntpLines| && s == [ntpLines[j]]
    case Users => j < |p.userLines| && s == [p.userLines[j]]
    case Logging => p.logging.action == Replace && j < |p.logging.sections| && s == p.logging.sections[j]
    case Dns => p.dns.action == Replace && j < |p.dns.sections| && s == p.dns.sections[j]
    case Aaa => p.aaa.action == Replace && j < |p.aaa.sections| && s == p.aaa.sections[j]
    case Snmp => p.snmp.action == Replace && j < |p.snmp.sections| && s == p.snmp.sections[j]
    case AccessClass => p.access == Replace && j == 0 && s == p.accessList
    case Crypto => false
  }

  ghost predicate FirstGone(r: Rules, p: Policy, sections: seq<Section>, c: Category, k: int) {
    && 0 <= k < |sections| && GoesAs(r, p, sections, sections[k], c)
    && forall j :: 0 <= j < k ==> !GoesAs(r, p, sections, sections[j], c)
  }

  /** The category starts behind the first `n` kept sections: those in front of the first section
      that went for it, or all of them. */
  ghost predicate StartsAt(r: Rules, p: Policy, sections: seq<Section>, ks: seq<nat>, c: Category, n: nat) {
    && n <= |ks|
    && ((forall k :: !FirstGone(r, p, sections, c, k)) ==> n == |ks|)
    && forall k :: FirstGone(r, p, sections, c, k) ==> forall i :: 0 <= i < |ks| ==> (i < n <==> ks[i] < k)
  }

  ghost predicate Wanted(r: Rules, p: Policy, ntpLines: seq<string>, sections: seq<Section>, ks: seq<nat>, x: Item) {
    x.New? && exists n: nat, j: nat ::
      StartsAt(r, p, sections, ks, x.category, n) && Asked(p, ntpLines, x.category, j, x.section) && x.index == n + j
  }

  /** The lab configuration: the kept sections, and every wanted section once, behind as many kept ones as its index says. */
  ghost predicate IsLabConfig(r: Rules, p: Policy, ntpLines: seq<string>, sections: seq<Section>, ks: seq<nat>, items: seq<Item>) {
    && KeptAre(r, p, sections, ks, Olds(items))
    && (forall x :: x in News(items) <==> Wanted(r, p, ntpLines, sections, ks, x))
    && (forall x :: multiset(News(items))[x] <= 1)
    && forall at :: 0 <= at < |items| && items[at].New? ==> KeptBefore(items, at) == Min(items[at].index, |ks|)
  }
}
