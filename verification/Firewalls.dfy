/** The firewall classification of the Lightsail adapter: which rules are well formed, which sources they
    name, which are open to the world where they should not be, and the text that is safe to show. */
module Firewalls {
  import opened Models
  import opened Orders

  /** What ipaddress makes of a source. */
  datatype Source = NotANetwork | Network(version: int, prefix: nat, loopback: bool, linkLocal: bool, isPrivate: bool)

  datatype Category = InvalidSource
                    | World(version: int) | Loopback(version: int) | LinkLocal(version: int)
                    | Private(version: int) | Restricted(version: int)
                    | ManagedAlias | Unspecified

  function SourceCategory(source: Source): Category {
    match source
    case NotANetwork => InvalidSource
    case Network(version, prefix, loopback, linkLocal, isPrivate) =>
      if prefix == 0 then World(version)
      else if loopback then Loopback(version)
      else if linkLocal then LinkLocal(version)
      else if isPrivate then Private(version)
      else Restricted(version)
  }

  /** An optional list of a rule. */
  datatype Listed<T> = Absent | NotAList | List(entries: seq<T>)

  /** A port of a rule: Python's int() accepts some values, refuses others, and booleans are refused by hand. */
  datatype Port = Missing | Boolean | Whole(n: int) | NotANumber

  datatype Protocol = AllProtocols | Icmp | IcmpV6 | Tcp | Udp | OtherProtocol

  datatype RuleState = Open | Closed | OtherState

  datatype Rule = NotAMapping
                | Rule(state: RuleState, protocol: Protocol, fromPort: Port, toPort: Port,
                       cidrs: Listed<Source>, ipv6Cidrs: Listed<Source>, aliases: Listed<string>)

  function PortOr(port: Port, fallback: Port): Port {
    if port.Missing? then fallback else port
  }

  /** The port range of a rule, when it has a valid one. */
  function PortRange(rule: Rule): Option<(int, int)>
    requires rule.Rule?
  {
    var from := PortOr(rule.fromPort, Whole(-1));
    var to := PortOr(rule.toPort, from);
    if from.Whole? && to.Whole? && 0 <= from.n <= to.n <= 65535 then Some((from.n, to.n)) else None
  }

  datatype Shape = Shape(valid: bool, expected: bool)

  function RuleShape(rule: Rule, expectedPorts: set<int>): Shape
    requires rule.Rule?
  {
    match rule.protocol
    case AllProtocols => Shape(true, false)
    case Icmp => Shape(true, false)
    case IcmpV6 => Shape(true, false)
    case OtherProtocol => Shape(false, false)
    case Tcp =>
      (match PortRange(rule)
       case None => Shape(false, false)
       case Some((from, to)) => Shape(true, from == to && from in expectedPorts))
    case Udp => Shape(PortRange(rule).Some?, false)
  }

  datatype Scopes = Scopes(categories: set<Category>, invalid: nat)

  function Categories(list: Listed<Source>): set<Category> {
    if list.List? then (set i | 0 <= i < |list.entries| :: SourceCategory(list.entries[i])) else {}
  }

  function InvalidEntries(entries: seq<Source>): nat {
    if entries == [] then 0
    else InvalidEntries(entries[..|entries| - 1]) + if entries[|entries| - 1].NotANetwork? then 1 else 0
  }

  function InvalidIn(list: Listed<Source>): nat {
    match list
    case Absent => 0
    case NotAList => 1
    case List(entries) => InvalidEntries(entries)
  }

  lemma {:induction false} NoInvalidEntries(entries: seq<Source>)
    ensures InvalidEntries(entries) == 0 <==> forall i | 0 <= i < |entries| :: !entries[i].NotANetwork?
  {
    if entries == [] {
    } else {
      NoInvalidEntries(entries[..|entries| - 1]);
    }
  }

  method ListScopes(list: Listed<Source>, start: Scopes) returns (scopes: Scopes)
    ensures scopes == Scopes(start.categories + Categories(list), start.invalid + InvalidIn(list))
  {
    scopes := start;
    if list.NotAList? {
      return Scopes(start.categories, start.invalid + 1);
    }
    if list.List? {
      for n := 0 to |list.entries|
        invariant scopes == Scopes(start.categories + Categories(List(list.entries[..n])),
                                   start.invalid + InvalidIn(List(list.entries[..n])))
      {
        var category := SourceCategory(list.entries[n]);
        NextCategory(list.entries, n);
        assert list.entries[..n + 1][..|list.entries[..n + 1]| - 1] == list.entries[..n];
        scopes := Scopes(scopes.categories + {category}, scopes.invalid + if category.InvalidSource? then 1 else 0);
      }
      assert list.entries[..|list.entries|] == list.entries;
    }
  }

  lemma NextCategory(entries: seq<Source>, n: nat)
    requires n < |entries|
    ensures Categories(List(entries[..n + 1])) == Categories(List(entries[..n])) + {SourceCategory(entries[n])}
  {
    var before, after := entries[..n], entries[..n + 1];
    assert forall i | 0 <= i < n :: after[i] == before[i];
    assert after[n] == entries[n];
    forall category | category in Categories(List(before)) ensures category in Categories(List(after)) {
      var i :| 0 <= i < n && SourceCategory(before[i]) == category;
      assert SourceCategory(after[i]) == category;
    }
  }

  predicate ListOk(list: Listed<Source>) {
    list.NotAList? || list.List? ==> list.List? && forall i | 0 <= i < |list.entries| :: !list.entries[i].NotANetwork?
  }

  predicate Nonempty<T>(list: Listed<T>) {
    list.List? && list.entries != []
  }

  /** Every source list is a list of networks, and at least one source or alias is named. */
  predicate SourcesOk(rule: Rule)
    requires rule.Rule?
  {
    && ListOk(rule.cidrs) && ListOk(rule.ipv6Cidrs) && !rule.aliases.NotAList?
    && (Nonempty(rule.cidrs) || Nonempty(rule.ipv6Cidrs) || Nonempty(rule.aliases))
  }

  /** Every address, of whatever version: a prefix of length zero. */
  predicate IsWorld(source: Source) {
    source.Network? && source.prefix == 0
  }

  predicate ListWorldOpen(list: Listed<Source>) {
    list.List? && exists i :: 0 <= i < |list.entries| && IsWorld(list.entries[i])
  }

  predicate WorldOpen(rule: Rule)
    requires rule.Rule?
  {
    ListWorldOpen(rule.cidrs) || ListWorldOpen(rule.ipv6Cidrs)
  }

  /** The categories a rule names. */
  function NamedCategories(rule: Rule): set<Category>
    requires rule.Rule?
  {
    Categories(rule.cidrs) + Categories(rule.ipv6Cidrs) + if Nonempty(rule.aliases) then {ManagedAlias} else {}
  }

  /** What is reported of its sources; naming none is reported and counted as well. */
  function ScopesOf(rule: Rule): Scopes
    requires rule.Rule?
  {
    var named := NamedCategories(rule);
    Scopes(if named == {} then {Unspecified} else named,
           InvalidIn(rule.cidrs) + InvalidIn(rule.ipv6Cidrs) + (if rule.aliases.NotAList? then 1 else 0)
           + if named == {} then 1 else 0)
  }

  predicate HasWorld(categories: set<Category>) {
    exists category :: category in categories && category.World?
  }

  method RuleScopes(rule: Rule) returns (scopes: Scopes)
    requires rule.Rule?
    ensures scopes == ScopesOf(rule)
  {
    scopes := ListScopes(rule.cidrs, Scopes({}, 0));
    scopes := ListScopes(rule.ipv6Cidrs, scopes);
    if rule.aliases.NotAList? {
      scopes := Scopes(scopes.categories, scopes.invalid + 1);
    } else if rule.aliases.List? && rule.aliases.entries != [] {
      scopes := Scopes(scopes.categories + {ManagedAlias}, scopes.invalid);
    }
    if scopes.categories == {} {
      scopes := Scopes({Unspecified}, scopes.invalid + 1);
    }
  }

  /** What the reported scopes say about a rule. */
  lemma ScopesTell(rule: Rule)
    requires rule.Rule?
    ensures ScopesOf(rule).invalid == 0 <==> SourcesOk(rule)
    ensures HasWorld(ScopesOf(rule).categories) <==> WorldOpen(rule)
  {
    var first := Categories(rule.cidrs);
    var second := first + Categories(rule.ipv6Cidrs);
    NamedSources(rule.cidrs, {}, first);
    NamedSources(rule.ipv6Cidrs, first, second);
    if rule.cidrs.List? {
      NoInvalidEntries(rule.cidrs.entries);
    }
    if rule.ipv6Cidrs.List? {
      NoInvalidEntries(rule.ipv6Cidrs.entries);
    }
    assert NamedCategories(rule) == second || ManagedAlias in NamedCategories(rule);
  }

  lemma NamedSources(list: Listed<Source>, before: set<Category>, after: set<Category>)
    requires after == before + Categories(list)
    ensures after == {} <==> before == {} && !Nonempty(list)
    ensures HasWorld(after) <==> ListWorldOpen(list) || HasWorld(before)
  {
    if Nonempty(list) {
      assert SourceCategory(list.entries[0]) in Categories(list);
    }
    if ListWorldOpen(list) {
      var i :| 0 <= i < |list.entries| && IsWorld(list.entries[i]);
      assert SourceCategory(list.entries[i]) in Categories(list);
    }
  }

  /** Every category by what the source is, the first that applies. */
  lemma CategoryIs(source: Source)
    ensures SourceCategory(source) == InvalidSource <==> source.NotANetwork?
    ensures forall version :: SourceCategory(source) == World(version) <==>
              source.Network? && source.version == version && source.prefix == 0
    ensures forall version :: SourceCategory(source) == Loopback(version) <==>
              source.Network? && source.version == version && source.prefix > 0 && source.loopback
    ensures forall version :: SourceCategory(source) == LinkLocal(version) <==>
              source.Network? && source.version == version && source.prefix > 0 && !source.loopback
              && source.linkLocal
    ensures forall version :: SourceCategory(source) == Private(version) <==>
              source.Network? && source.version == version && source.prefix > 0 && !source.loopback
              && !source.linkLocal && source.isPrivate
    ensures forall version :: SourceCategory(source) == Restricted(version) <==>
              source.Network? && source.version == version && source.prefix > 0 && !source.loopback
              && !source.linkLocal && !source.isPrivate
    ensures !SourceCategory(source).ManagedAlias? && !SourceCategory(source).Unspecified?
  {
  }

  /** The ports a rule names, lowest and highest, are whole numbers in range; a rule may name one only. */
  predicate NamesPorts(rule: Rule)
    requires rule.Rule?
  {
    && rule.fromPort.Whole? && 0 <= rule.fromPort.n <= 65535
    && (rule.toPort.Missing? || (rule.toPort.Whole? && rule.fromPort.n <= rule.toPort.n <= 65535))
  }

  /** A rule for one TCP port, an expected one. */
  predicate OneExpectedPort(rule: Rule, expectedPorts: set<int>)
    requires rule.Rule?
  {
    && rule.protocol == Tcp && NamesPorts(rule) && (rule.toPort.Missing? || rule.toPort == rule.fromPort)
    && rule.fromPort.n in expectedPorts
  }

  /** The shape of a rule by its fields. */
  lemma ShapeIs(rule: Rule, expectedPorts: set<int>)
    requires rule.Rule?
    ensures RuleShape(rule, expectedPorts).valid <==>
            || rule.protocol == AllProtocols || rule.protocol == Icmp || rule.protocol == IcmpV6
            || ((rule.protocol == Tcp || rule.protocol == Udp) && NamesPorts(rule))
    ensures RuleShape(rule, expectedPorts).expected <==> OneExpectedPort(rule, expectedPorts)
    ensures NamesPorts(rule) ==>
              PortRange(rule) == Some((rule.fromPort.n,
                                       if rule.toPort.Missing? then rule.fromPort.n else rule.toPort.n))
  {
  }

  // ---------- what is shown of a rule ----------

  function Digits(n: nat): string {
    (if n < 10 then "" else Digits(n / 10)) + ["0123456789"[n % 10]]
  }

  function ProtocolText(protocol: Protocol): string {
    match protocol
    case AllProtocols => "all"
    case Icmp => "icmp"
    case IcmpV6 => "icmpv6"
    case Tcp => "tcp"
    case Udp => "udp"
    case OtherProtocol => "invalid"
  }

  function Descriptor(rule: Rule): string
    requires rule.Rule?
  {
    if rule.protocol != Tcp && rule.protocol != Udp then ProtocolText(rule.protocol)
    else
      match PortRange(rule)
      case None => ProtocolText(rule.protocol) + ":invalid"
      case Some((from, to)) =>
        (if from == to then Digits(from) else Digits(from) + "-" + Digits(to)) + "/" + ProtocolText(rule.protocol)
  }

  function VersionText(version: int): string {
    if version == 4 then "ipv4" else "ipv6"
  }

  function CategoryText(category: Category): string {
    match category
    case InvalidSource => "invalid_source"
    case World(version) => "world_" + VersionText(version)
    case Loopback(version) => "loopback_" + VersionText(version)
    case LinkLocal(version) => "link_local_" + VersionText(version)
    case Private(version) => "private_" + VersionText(version)
    case Restricted(version) => "restricted_" + VersionText(version)
    case ManagedAlias => "managed_alias"
    case Unspecified => "unspecified"
  }

  /** The text of a source's category, by what the source is. */
  lemma CategoryTextIs(source: Source)
    ensures source.NotANetwork? ==> CategoryText(SourceCategory(source)) == "invalid_source"
    ensures source.Network? ==>
              CategoryText(SourceCategory(source)) ==
              (if source.prefix == 0 then "world_" else if source.loopback then "loopback_"
               else if source.linkLocal then "link_local_" else if source.isPrivate then "private_"
               else "restricted_") + (if source.version == 4 then "ipv4" else "ipv6")
  {
  }

  /** The number a text of decimal digits stands for. */
  function NumberOf(digits: string): int {
    if digits == "" then 0 else NumberOf(digits[..|digits| - 1]) * 10 + (digits[|digits| - 1] as int - '0' as int)
  }

  lemma {:induction false} DigitsTell(n: nat)
    ensures Digits(n) != "" && NumberOf(Digits(n)) == n
  {
    var last := "0123456789"[n % 10];
    assert last as int - '0' as int == n % 10;
    if n < 10 {
      assert Digits(n) == [last] && [last][..0] == "";
    } else {
      DigitsTell(n / 10);
      assert Digits(n) == Digits(n / 10) + [last];
      assert Digits(n)[..|Digits(n)| - 1] == Digits(n / 10);
    }
  }

  /** What is shown of a rule's protocol and ports. */
  lemma DescriptorIs(rule: Rule)
    requires rule.Rule?
    ensures rule.protocol == AllProtocols ==> Descriptor(rule) == "all"
    ensures rule.protocol == Icmp ==> Descriptor(rule) == "icmp"
    ensures rule.protocol == IcmpV6 ==> Descriptor(rule) == "icmpv6"
    ensures rule.protocol == OtherProtocol ==> Descriptor(rule) == "invalid"
    ensures rule.protocol == Tcp && !NamesPorts(rule) ==> Descriptor(rule) == "tcp:invalid"
    ensures rule.protocol == Udp && !NamesPorts(rule) ==> Descriptor(rule) == "udp:invalid"
    ensures (rule.protocol == Tcp || rule.protocol == Udp) && NamesPorts(rule) ==>
              Descriptor(rule) ==
              (if rule.toPort.Missing? || rule.toPort == rule.fromPort then Digits(rule.fromPort.n)
               else Digits(rule.fromPort.n) + "-" + Digits(rule.toPort.n))
              + (if rule.protocol == Tcp then "/tcp" else "/udp")
  {
    hide Digits;
    ShapeIs(rule, {});
    if (rule.protocol == Tcp || rule.protocol == Udp) && NamesPorts(rule) {
      var ports := if rule.toPort.Missing? || rule.toPort == rule.fromPort then Digits(rule.fromPort.n)
                   else Digits(rule.fromPort.n) + "-" + Digits(rule.toPort.n);
      assert (ports + "/") + "tcp" == ports + "/tcp" && (ports + "/") + "udp" == ports + "/udp";
    }
  }

  function CategoryTexts(categories: set<Category>): set<string> {
    set category | category in categories :: CategoryText(category)
  }

  /** separator.join(values), as it is built by appending. */
  function Joined(values: seq<string>, separator: string): string {
    if values == [] then ""
    else
      var front, last := Joined(values[..|values| - 1], separator), values[|values| - 1];
      if |values| == 1 then last else front + separator + last
  }

  /** The safe text of one rule: its descriptor and the categories of its sources, never a source. */
  ghost function RuleText(rule: Rule): string
    requires rule.Rule?
  {
    StringOrder();
    Descriptor(rule) + "@" + Joined(Listing(StringLess, CategoryTexts(ScopesOf(rule).categories)), "+")
  }

  method Join(values: seq<string>, separator: string) returns (text: string)
    ensures text == Joined(values, separator)
  {
    text := "";
    for i := 0 to |values|
      invariant text == Joined(values[..i], separator)
    {
      assert values[..i + 1][..i] == values[..i];
      text := if i == 0 then values[i] else text + separator + values[i];
    }
    assert values[..|values|] == values;
  }

  method JoinSorted(values: set<string>, separator: string) returns (text: string)
    requires StrictTotal(StringLess)
    ensures text == Joined(Listing(StringLess, values), separator)
  {
    hide *;
    var listed := Sorted(StringLess, values);
    text := Join(listed, separator);
  }

  // ---------- all rules ----------

  datatype Firewall = Firewall(available: bool, rules: set<string>, scopes: set<Category>, unsafeWorldOpen: nat,
      invalidRules: nat)

  /** A rule the adapter has nothing against: closed, or well formed with valid sources, and open
      to the world only on one expected TCP port. */
  predicate Harmless(rule: Rule, expectedPorts: set<int>) {
    && rule.Rule?
    && (rule.state.Closed?
        || (&& rule.state.Open?
            && RuleShape(rule, expectedPorts).valid
            && SourcesOk(rule)
            && (WorldOpen(rule) ==> RuleShape(rule, expectedPorts).expected)))
  }

  /** What one rule adds to the evaluation: nothing when it is closed. */
  ghost function RuleFirewall(rule: Rule, expectedPorts: set<int>): Firewall {
    if rule.NotAMapping? then Firewall(true, {}, {}, 0, 1)
    else
      match rule.state
      case Closed => Firewall(true, {}, {}, 0, 0)
      case OtherState => Firewall(true, {}, {}, 0, 1)
      case Open =>
        var shape, scopes := RuleShape(rule, expectedPorts), ScopesOf(rule);
        Firewall(true, {RuleText(rule)}, scopes.categories,
                 if HasWorld(scopes.categories) && !(shape.valid && shape.expected) then 1 else 0,
                 scopes.invalid + if shape.valid then 0 else 1)
  }

  function Both(a: Firewall, b: Firewall): Firewall {
    Firewall(true, a.rules + b.rules, a.scopes + b.scopes, a.unsafeWorldOpen + b.unsafeWorldOpen,
             a.invalidRules + b.invalidRules)
  }

  ghost function AllRules(rules: seq<Rule>, expectedPorts: set<int>): (firewall: Firewall)
    ensures firewall.available
  {
    if rules == [] then Firewall(true, {}, {}, 0, 0)
    else Both(AllRules(rules[..|rules| - 1], expectedPorts), RuleFirewall(rules[|rules| - 1], expectedPorts))
  }

  method EvaluateRule(rule: Rule, expectedPorts: set<int>) returns (firewall: Firewall)
    ensures firewall == RuleFirewall(rule, expectedPorts)
  {
    hide RuleShape, ScopesOf, Descriptor, CategoryTexts, StringLess, Joined;
    if rule.NotAMapping? {
      return Firewall(true, {}, {}, 0, 1);
    }
    if rule.state.Closed? {
      return Firewall(true, {}, {}, 0, 0);
    }
    if rule.state.OtherState? {
      return Firewall(true, {}, {}, 0, 1);
    }
    var shape := RuleShape(rule, expectedPorts);
    var scopes := RuleScopes(rule);
    var unsafe := if HasWorld(scopes.categories) && (!shape.valid || !shape.expected) then 1 else 0;
    StringOrder();
    var sources := JoinSorted(CategoryTexts(scopes.categories), "+");
    firewall := Firewall(true, {Descriptor(rule) + "@" + sources}, scopes.categories, unsafe,
                         scopes.invalid + if shape.valid then 0 else 1);
  }

  method EvaluateFirewall(rules: Listed<Rule>, expectedPorts: set<int>) returns (firewall: Firewall)
    ensures firewall == if rules.List? then AllRules(rules.entries, expectedPorts) else Firewall(false, {}, {}, 0, 1)
  {
    hide RuleFirewall;
    if !rules.List? {
      return Firewall(false, {}, {}, 0, 1);
    }
    firewall := Firewall(true, {}, {}, 0, 0);
    for n := 0 to |rules.entries|
      invariant firewall == AllRules(rules.entries[..n], expectedPorts)
    {
      assert rules.entries[..n + 1][..n] == rules.entries[..n];
      var added := EvaluateRule(rules.entries[n], expectedPorts);
      firewall := Both(firewall, added);
    }
    assert rules.entries[..|rules.entries|] == rules.entries;
  }

  lemma HarmlessRule(rule: Rule, expectedPorts: set<int>)
    ensures var f := RuleFirewall(rule, expectedPorts);
            f.unsafeWorldOpen == 0 && f.invalidRules == 0 <==> Harmless(rule, expectedPorts)
  {
    if rule.Rule? {
      ScopesTell(rule);
    }
  }

  /** The counts are both zero exactly when every rule is harmless. */
  lemma {:induction false} HarmlessFirewall(rules: seq<Rule>, expectedPorts: set<int>)
    ensures var f := AllRules(rules, expectedPorts);
            f.unsafeWorldOpen == 0 && f.invalidRules == 0 <==>
            forall i | 0 <= i < |rules| :: Harmless(rules[i], expectedPorts)
  {
    hide RuleFirewall, Harmless;
    if rules == [] {
    } else {
      HarmlessFirewall(rules[..|rules| - 1], expectedPorts);
      HarmlessRule(rules[|rules| - 1], expectedPorts);
    }
  }

  /** A harmless rule by its fields: closed, or open and well formed, and open to the world at most on
      one expected TCP port. */
  lemma HarmlessIs(rule: Rule, expectedPorts: set<int>)
    ensures Harmless(rule, expectedPorts) <==>
            && rule.Rule?
            && (rule.state.Closed?
                || (&& rule.state.Open?
                    && (rule.protocol == AllProtocols || rule.protocol == Icmp || rule.protocol == IcmpV6
                        || ((rule.protocol == Tcp || rule.protocol == Udp) && NamesPorts(rule)))
                    && SourcesOk(rule)
                    && (WorldOpen(rule) ==> OneExpectedPort(rule, expectedPorts))))
  {
    if rule.Rule? {
      ShapeIs(rule, expectedPorts);
    }
  }

  /** An open rule with a source that is every address, in either list, is for one expected TCP port. */
  predicate ExposesExpected(rule: Rule, expectedPorts: set<int>) {
    rule.Rule? && rule.state.Open? && (ListWorldOpen(rule.cidrs) || ListWorldOpen(rule.ipv6Cidrs)) ==>
      && rule.protocol == Tcp
      && rule.fromPort.Whole? && rule.fromPort.n in expectedPorts
      && (rule.toPort.Missing? || rule.toPort == rule.fromPort)
  }

  lemma HarmlessWorldOpen(rule: Rule, expectedPorts: set<int>)
    requires Harmless(rule, expectedPorts)
    ensures ExposesExpected(rule, expectedPorts)
  {
    HarmlessIs(rule, expectedPorts);
  }

  // ---------- the text of all rules ----------

  const MAX_SHOWN: nat := 480
  const MORE: string := "more"

  /** What is put in line for the text: the first `limit` rules, and a mark when there are more. */
  function InLine(listed: seq<string>, limit: nat): seq<string> {
    if |listed| <= limit then listed else listed[..limit] + [MORE]
  }

  /** One more value behind the text so far. */
  function Candidate(text: string, value: string): string {
    if text == "" then value else text + "," + value
  }

  function Chained(values: seq<string>): string {
    if values == [] then "" else Candidate(Chained(values[..|values| - 1]), values[|values| - 1])
  }

  predicate EndsWithMore(text: string) {
    |text| >= 4 && text[|text| - 4..] == MORE
  }

  /** The text is cut before the first value that makes it too long, and marked. */
  predicate Shown(values: seq<string>, shown: nat, text: string) {
    && shown <= |values|
    && (forall n | 0 <= n <= shown :: |Chained(values[..n])| <= 480)
    && var kept := Chained(values[..shown]);
       if shown == |values| then text == kept
       else |Candidate(kept, values[shown])| > 480
            && text == if kept == "" then MORE else if EndsWithMore(kept) then kept else kept + "," + MORE
  }

  lemma ChainedStep(values: seq<string>, n: nat)
    requires n < |values|
    ensures Chained(values[..n + 1]) == Candidate(Chained(values[..n]), values[n])
  {
    assert values[..n + 1][..n] == values[..n];
  }

  /** The detail recorded in the health record. It never exceeds what a health record accepts. */
  method RulesText(rules: set<string>, limit: nat) returns (text: string, ghost shown: nat)
    requires StrictTotal(StringLess)
    ensures Shown(InLine(Listing(StringLess, rules), limit), shown, text)
    ensures |text| <= 485
  {
    hide StringLess, Chained, Candidate, InLine, EndsWithMore;
    var listed := Sorted(StringLess, rules);
    var values := InLine(listed, limit);
    text, shown := "", 0;
    NothingChained(values);
    for n := 0 to |values|
      invariant shown == n && text == Chained(values[..n])
      invariant forall m | 0 <= m <= n :: |Chained(values[..m])| <= MAX_SHOWN
    {
      ChainedStep(values, n);
      var candidate := Candidate(text, values[n]);
      if |candidate| > MAX_SHOWN {
        text := if text == "" then MORE else if EndsWithMore(text) then text else text + "," + MORE;
        return;
      }
      text, shown := candidate, n + 1;
    }
  }

  lemma NothingChained(values: seq<string>)
    ensures Chained(values[..0]) == ""
  {
  }
}
