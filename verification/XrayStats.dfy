/** From an Xray stats payload to counter observations: filter, keep the last value of each
    pseudonymous counter, sort. Whatever the payload, the result can be recorded as one batch. */
module XrayStats {
  import opened Models
  import opened Orders
  import opened Ledger
  import opened BatchLaws

  /** What Python's int() makes of a raw value: an integer, an error the parser catches, or for an
      infinite number one that it does not. */
  datatype RawValue = Integer(n: int) | Unconvertible | Infinite

  /** One entry of the payload. */
  datatype Item = NotAnObject | Stat(name: Option<string>, value: RawValue)

  datatype TrafficCounter = TrafficCounter(scope: string, direction: string, identityLabel: string,
      identityValue: string, value: Reading)

  type Key = seq<string>

  function KeyOf(counter: TrafficCounter): Key {
    [counter.scope, counter.direction, counter.identityLabel, counter.identityValue]
  }

  // ---------- str.split(">>>") ----------

  function FindArrow(s: string): (at: Option<nat>)
    ensures at.Some? ==> at.value + 3 <= |s|
  {
    if |s| < 3 then None
    else if s[..3] == ">>>" then Some(0)
    else
      match FindArrow(s[1..])
      case Some(i) => Some(i + 1)
      case None => None
  }

  function Split(s: string): seq<string>
    decreases |s|
  {
    match FindArrow(s)
    case Some(i) => [s[..i]] + Split(s[i + 3..])
    case None => [s]
  }

  // ---------- the filter ----------

  function Pseudonym(prefix: string, digest: string -> string, raw: string): string {
    prefix + "_" + digest(raw)
  }

  /** The parts of a supported name. */
  function Parts(item: Item): (parts: Option<seq<string>>)
    ensures parts.Some? ==> |parts.value| == 4
  {
    if item.NotAnObject? || item.name.None? then None
    else
      var parts := Split(item.name.value);
      if |parts| != 4 then None
      else if parts[0] !in {"user", "inbound", "outbound"} then None
      else if parts[2] != "traffic" || parts[3] !in {"uplink", "downlink"} then None
      else Some(parts)
  }

  /** The counter an entry stands for, or nothing when the entry is ignored. */
  function Accepted(item: Item, digest: string -> string): Option<TrafficCounter> {
    match Parts(item)
    case None => None
    case Some(parts) =>
      if !item.value.Integer? || !(0 <= item.value.n <= MAX_INTEGER) then None
      else if parts[0] == "user" then
        Some(TrafficCounter(parts[0], parts[3], "user_hash", Pseudonym("usr", digest, parts[1]), item.value.n))
      else
        Some(TrafficCounter(parts[0], parts[3], "tag", Pseudonym("tag", digest, parts[1]), item.value.n))
  }

  /** An entry on which the parser raises: an infinite value under a supported name. */
  predicate Raises(item: Item) {
    Parts(item).Some? && item.value.Infinite?
  }

  predicate AnyRaises(items: seq<Item>) {
    exists i :: 0 <= i < |items| && Raises(items[i])
  }

  predicate ArrowAt(s: string, i: nat) {
    i + 3 <= |s| && s[i] == '>' && s[i + 1] == '>' && s[i + 2] == '>'
  }

  /** The first separator is found. */
  lemma {:induction false} FirstArrow(s: string)
    ensures FindArrow(s).None? ==> forall i: nat :: !ArrowAt(s, i)
    ensures FindArrow(s).Some? ==>
              ArrowAt(s, FindArrow(s).value) && forall i | 0 <= i < FindArrow(s).value :: !ArrowAt(s, i)
  {
    if |s| >= 3 {
      FirstArrow(s[1..]);
      assert s[..3] == ">>>" <==> ArrowAt(s, 0) by {
        assert s[..3] == [s[0], s[1], s[2]];
      }
      assert forall i: nat | i > 0 :: ArrowAt(s, i) <==> ArrowAt(s[1..], i - 1);
      if FindArrow(s).None? {
        forall i: nat ensures !ArrowAt(s, i) {
          if i > 0 {
            assert !ArrowAt(s[1..], i - 1);
          }
        }
      } else if FindArrow(s).value > 0 {
        forall i | 0 <= i < FindArrow(s).value ensures !ArrowAt(s, i) {
          if i > 0 {
            assert !ArrowAt(s[1..], i - 1);
          }
        }
      }
    }
  }

  lemma SplitAtArrow(s: string)
    ensures FindArrow(s).None? ==> Split(s) == [s]
    ensures FindArrow(s).Some? ==>
              && Split(s) == [s[..FindArrow(s).value]] + Split(s[FindArrow(s).value + 3..])
              && Split(s[FindArrow(s).value + 3..]) != []
              && s == s[..FindArrow(s).value] + ">>>" + s[FindArrow(s).value + 3..]
  {
    FirstArrow(s);
    if FindArrow(s).Some? {
      CutAtArrow(s, FindArrow(s).value);
    }
    hide FindArrow;
  }

  lemma CutAtArrow(s: string, i: nat)
    requires ArrowAt(s, i)
    ensures s == s[..i] + ">>>" + s[i + 3..]
  {
    assert s[i..i + 3] == [s[i], s[i + 1], s[i + 2]] == ">>>";
    assert s == s[..i] + s[i..i + 3] + s[i + 3..];
  }

  /** A name that splits into four is those four, joined again. */
  lemma FourParts(s: string)
    requires |Split(s)| == 4
    ensures var p := Split(s); s == p[0] + ">>>" + (p[1] + ">>>" + (p[2] + ">>>" + p[3]))
  {
    hide Split, FindArrow;
    SplitAtArrow(s);
    var a := s[FindArrow(s).value + 3..];
    SplitAtArrow(a);
    var b := a[FindArrow(a).value + 3..];
    SplitAtArrow(b);
    var c := b[FindArrow(b).value + 3..];
    SplitAtArrow(c);
  }

  /** What an entry must look like to be accepted, and what is kept of it. */
  lemma AcceptedIs(item: Item, digest: string -> string)
    requires Accepted(item, digest).Some?
    ensures var counter := Accepted(item, digest).value;
            && item.Stat? && item.value == Integer(counter.value) && 0 <= counter.value <= MAX_INTEGER
            && counter.scope in {"user", "inbound", "outbound"} && counter.direction in {"uplink", "downlink"}
    ensures var counter := Accepted(item, digest).value;
            exists identity: string ::
              && item.name == Some(counter.scope + ">>>" + (identity + ">>>" + ("traffic" + ">>>" + counter.direction)))
              && (counter.scope == "user" ==>
                    counter.identityLabel == "user_hash" && counter.identityValue == "usr_" + digest(identity))
              && (counter.scope != "user" ==>
                    counter.identityLabel == "tag" && counter.identityValue == "tag_" + digest(identity))
  {
    var parts := Split(item.name.value);
    FourParts(item.name.value);
    hide Split;
    var counter, identity := Accepted(item, digest).value, parts[1];
    assert item.name == Some(counter.scope + ">>>" + (identity + ">>>" + ("traffic" + ">>>" + counter.direction)));
    assert "usr" + "_" == "usr_" && "tag" + "_" == "tag_";
  }

  /** The parser raises exactly on an infinite value under a name that any other value would be accepted with. */
  lemma RaisesIs(item: Item, digest: string -> string)
    ensures Raises(item) <==> item.Stat? && item.value == Infinite && Accepted(item.(value := Integer(0)), digest).Some?
  {
    hide Split;
  }

  predicate NoArrowhead(s: string) {
    forall i | 0 <= i < |s| :: s[i] != '>'
  }

  lemma {:induction false} FindAfter(part: string, rest: string)
    requires NoArrowhead(part)
    ensures FindArrow(part + ">>>" + rest) == Some(|part|)
  {
    var s := part + ">>>" + rest;
    if part == "" {
      assert s[..3] == ">>>";
    } else {
      assert s[..3][0] == part[0] != '>';
      assert s[1..] == part[1..] + ">>>" + rest;
      FindAfter(part[1..], rest);
    }
  }

  lemma {:induction false} FindNone(part: string)
    requires NoArrowhead(part)
    ensures FindArrow(part) == None
  {
    if |part| >= 3 {
      assert part[..3][0] != '>';
      FindNone(part[1..]);
    }
  }

  lemma SplitFirst(part: string, rest: string)
    requires NoArrowhead(part)
    ensures Split(part + ">>>" + rest) == [part] + Split(rest)
  {
    var s := part + ">>>" + rest;
    FindAfter(part, rest);
    assert s[..|part|] == part && s[|part| + 3..] == rest;
  }

  lemma SplitFour(a: string, b: string, c: string, d: string)
    requires NoArrowhead(a) && NoArrowhead(b) && NoArrowhead(c) && NoArrowhead(d)
    ensures Split(a + ">>>" + (b + ">>>" + (c + ">>>" + d))) == [a, b, c, d]
  {
    SplitFirst(a, b + ">>>" + (c + ">>>" + d));
    SplitFirst(b, c + ">>>" + d);
    SplitFirst(c, d);
    FindNone(d);
  }

  /** An entry of the supported shape is read part by part, and only its pseudonym is kept. */
  lemma WellFormedStatIsAccepted(scope: string, identity: string, direction: string, value: Reading,
                                 digest: string -> string)
    requires scope in {"user", "inbound", "outbound"} && direction in {"uplink", "downlink"} && NoArrowhead(identity)
    ensures Accepted(Stat(Some(scope + ">>>" + (identity + ">>>" + ("traffic" + ">>>" + direction))),
                          Integer(value)), digest)
         == Some(if scope == "user"
                 then TrafficCounter(scope, direction, "user_hash", Pseudonym("usr", digest, identity), value)
                 else TrafficCounter(scope, direction, "tag", Pseudonym("tag", digest, identity), value))
  {
    assert NoArrowhead(scope) && NoArrowhead("traffic") && NoArrowhead(direction);
    SplitFour(scope, identity, "traffic", direction);
    hide Split, FindArrow, NoArrowhead;
  }

  // ---------- the parser ----------

  /** The last accepted entry for a key. */
  function LastOf(items: seq<Item>, key: Key, digest: string -> string): Option<TrafficCounter> {
    if items == [] then
      None
    else
      var last := Accepted(items[|items| - 1], digest);
      if last.Some? && KeyOf(last.value) == key then last else LastOf(items[..|items| - 1], key, digest)
  }

  /** It is the last entry accepted under the key. */
  lemma {:induction false} LastIs(items: seq<Item>, key: Key, digest: string -> string, i: nat)
    requires i < |items| && Accepted(items[i], digest).Some? && KeyOf(Accepted(items[i], digest).value) == key
    requires forall j | i < j < |items| ::
               Accepted(items[j], digest).Some? ==> KeyOf(Accepted(items[j], digest).value) != key
    ensures LastOf(items, key, digest) == Accepted(items[i], digest)
  {
    if i < |items| - 1 {
      LastIs(items[..|items| - 1], key, digest, i);
    }
  }

  function Keys(items: seq<Item>, digest: string -> string): set<Key> {
    if items == [] then
      {}
    else
      var last := Accepted(items[|items| - 1], digest);
      Keys(items[..|items| - 1], digest) + if last.Some? then {KeyOf(last.value)} else {}
  }

  lemma {:induction false} EveryKeyHasALast(items: seq<Item>, key: Key, digest: string -> string)
    ensures key in Keys(items, digest) <==> LastOf(items, key, digest).Some?
    ensures LastOf(items, key, digest).Some? ==> KeyOf(LastOf(items, key, digest).value) == key
  {
    if items == [] {
    } else {
      EveryKeyHasALast(items[..|items| - 1], key, digest);
    }
  }

  ghost function ListedKeys(items: seq<Item>, digest: string -> string): seq<Key> {
    TupleOrder();
    Listing(TupleLess, Keys(items, digest))
  }

  /** What the parser returns: for every key the last accepted entry, in the order of the keys. */
  ghost predicate IsParsed(items: seq<Item>, digest: string -> string, counters: seq<TrafficCounter>) {
    var keys := ListedKeys(items, digest);
    && |counters| == |keys|
    && forall i | 0 <= i < |keys| :: LastOf(items, keys[i], digest) == Some(counters[i])
  }

  /** counters[key] = ..., entry by entry, unless an entry raises. */
  method KeepLast(items: seq<Item>, digest: string -> string) returns (found: Option<map<Key, TrafficCounter>>)
    ensures found.None? <==> AnyRaises(items)
    ensures found.Some? ==> found.value.Keys == Keys(items, digest)
    ensures found.Some? ==> forall key :: key in found.value ==> LastOf(items, key, digest) == Some(found.value[key])
  {
    var counters: map<Key, TrafficCounter> := map[];
    for i := 0 to |items|
      invariant forall j | 0 <= j < i :: !Raises(items[j])
      invariant counters.Keys == Keys(items[..i], digest)
      invariant forall key :: key in counters ==> LastOf(items[..i], key, digest) == Some(counters[key])
    {
      hide Accepted, Raises;
      assert items[..i + 1][..|items[..i + 1]| - 1] == items[..i];
      if Raises(items[i]) {
        return None;
      }
      var counter := Accepted(items[i], digest);
      if counter.Some? {
        counters := counters[KeyOf(counter.value) := counter.value];
      }
    }
    assert items[..|items|] == items;
    found := Some(counters);
  }

  method ParseStats(items: seq<Item>, digest: string -> string) returns (parsed: Option<seq<TrafficCounter>>)
    ensures parsed.None? <==> AnyRaises(items)
    ensures parsed.Some? ==> IsParsed(items, digest, parsed.value)
  {
    hide Accepted, LastOf, Keys, TupleLess, AnyRaises;
    var found := KeepLast(items, digest);
    if found.None? {
      return None;
    }
    TupleOrder();
    var keys := Sorted(TupleLess, found.value.Keys);
    var counters := [];
    for i := 0 to |keys|
      invariant |counters| == i
      invariant forall j | 0 <= j < i :: LastOf(items, keys[j], digest) == Some(counters[j])
    {
      assert keys[i] in Elements(keys);
      counters := counters + [found.value[keys[i]]];
    }
    parsed := Some(counters);
  }

  const MIN_KEY_BYTES: nat := 16
  const MAX_STATS_OUTPUT_BYTES: nat := 2 * 1024 * 1024

  datatype Refusal = ShortKey | TooLarge | NotStats | Overflow

  datatype Parsed = Refused(why: Refusal) | Counters(counters: seq<TrafficCounter>)

  /** What a JSON object holds under a key. */
  datatype Field = Items(items: seq<Item>) | NoList

  /** What json.loads makes of the output. */
  datatype Document = NotJson | Array(items: seq<Item>) | Object(stat: Option<Field>, stats: Option<Field>) | OtherValue

  /** A match of the text pattern. Its name is absent when its escapes are not JSON. */
  datatype TextMatch = TextMatch(name: Option<string>, value: RawValue)

  /** The output of the stats command and its size: blank, something that starts like JSON, or text. */
  datatype Payload = Blank(size: nat) | Json(size: nat, document: Document) | Text(size: nat, matches: seq<TextMatch>)

  /** The entries of a JSON document, if it is a list or holds one: a key `stat` hides the key `stats`. */
  function JsonItems(document: Document): Option<seq<Item>> {
    match document
    case Array(items) => Some(items)
    case Object(stat, stats) =>
      var field := if stat.Some? then stat else stats;
      if field.Some? && field.value.Items? then Some(field.value.items) else None
    case NotJson => None
    case OtherValue => None
  }

  /** Which lists are found: the document itself, or what is under `stat`, or without that under `stats`. */
  lemma JsonItemsAre(document: Document, items: seq<Item>)
    ensures JsonItems(document) == Some(items) <==>
            || document == Array(items)
            || (document.Object? && document.stat == Some(Items(items)))
            || (document.Object? && document.stat == None && document.stats == Some(Items(items)))
  {
  }

  predicate AllNamed(matches: seq<TextMatch>) {
    forall i | 0 <= i < |matches| :: matches[i].name.Some?
  }

  /** Text without a match is malformed, and so is text with a name that cannot be decoded. */
  function TextItemsOf(matches: seq<TextMatch>): Option<seq<Item>> {
    if matches != [] && AllNamed(matches) then
      Some(seq(|matches|, i requires 0 <= i < |matches| => Stat(matches[i].name, matches[i].value)))
    else
      None
  }

  method TextItems(matches: seq<TextMatch>) returns (items: Option<seq<Item>>)
    ensures items == TextItemsOf(matches)
    ensures items.None? <==> matches == [] || exists i :: 0 <= i < |matches| && matches[i].name.None?
    ensures items.Some? ==> |items.value| == |matches| && forall i | 0 <= i < |matches| ::
              items.value[i] == Stat(matches[i].name, matches[i].value)
  {
    var found := [];
    for n := 0 to |matches|
      invariant AllNamed(matches[..n]) && |found| == n
      invariant forall i | 0 <= i < n :: found[i] == Stat(matches[i].name, matches[i].value)
    {
      if matches[n].name.None? {
        return None;
      }
      found := found + [Stat(matches[n].name, matches[n].value)];
    }
    assert matches[..|matches|] == matches;
    if matches == [] {
      return None;
    }
    assert found == TextItemsOf(matches).value;
    items := Some(found);
  }

  function ItemsOf(payload: Payload): Option<seq<Item>> {
    match payload
    case Blank(_) => Some([])
    case Json(_, document) => JsonItems(document)
    case Text(_, matches) => TextItemsOf(matches)
  }

  /** A short hashing key is refused before anything else, then output that is too large, then output
      that is not a list of entries, then an infinite value; whatever is left is parsed. */
  method ParsePayload(keyBytes: nat, payload: Payload, digest: string -> string) returns (parsed: Parsed)
    ensures parsed == Refused(ShortKey) <==> keyBytes < 16
    ensures parsed == Refused(TooLarge) <==> keyBytes >= 16 && payload.size > 2097152
    ensures parsed == Refused(NotStats) <==> keyBytes >= 16 && payload.size <= 2097152 && ItemsOf(payload).None?
    ensures parsed == Refused(Overflow) <==>
              keyBytes >= 16 && payload.size <= 2097152 && ItemsOf(payload).Some?
                  && AnyRaises(ItemsOf(payload).value)
    ensures parsed.Counters? ==>
              ItemsOf(payload).Some? && IsParsed(ItemsOf(payload).value, digest, parsed.counters)
  {
    hide IsParsed, AnyRaises;
    if keyBytes < MIN_KEY_BYTES {
      return Refused(ShortKey);
    }
    if payload.size > MAX_STATS_OUTPUT_BYTES {
      return Refused(TooLarge);
    }
    var items;
    match payload {
      case Blank(_) =>
        NothingParsed(digest);
        return Counters([]);
      case Json(_, document) =>
        items := JsonItems(document);
      case Text(_, matches) =>
        items := TextItems(matches);
    }
    if items.None? {
      return Refused(NotStats);
    }
    var counters := ParseStats(items.value, digest);
    parsed := if counters.Some? then Counters(counters.value) else Refused(Overflow);
  }

  lemma NothingParsed(digest: string -> string)
    ensures IsParsed([], digest, []) && !AnyRaises([])
  {
    TupleOrder();
    NoElements(ListedKeys([], digest));
  }

  // ---------- one snapshot, one batch ----------

  /** A truncated hexadecimal HMAC. */
  ghost predicate IsDigest(digest: string -> string) {
    forall raw: string :: |digest(raw)| == 24 && Printable(digest(raw))
  }

  predicate Safe(counter: TrafficCounter) {
    && counter.scope in {"user", "inbound", "outbound"} && counter.direction in {"uplink", "downlink"}
    && counter.identityLabel in {"user_hash", "tag"} && |counter.identityValue| <= 256
       && Printable(counter.identityValue)
  }

  lemma FixedTextIsValid()
    ensures ValidPart("scope") && ValidPart("direction") && ValidPart("user_hash") && ValidPart("tag")
    ensures forall text | text in {"user", "inbound", "outbound", "uplink", "downlink"} ::
              |text| <= 256 && Printable(text)
  {
  }

  lemma LabelsAreValid(counter: TrafficCounter)
    requires Safe(counter)
    ensures ValidLabels(map["scope" := counter.scope, "direction" := counter.direction,
            counter.identityLabel := counter.identityValue])
  {
    var labels := map["scope" := counter.scope, "direction" := counter.direction,
        counter.identityLabel := counter.identityValue];
    assert labels.Keys == {"scope", "direction", counter.identityLabel};
    assert |labels| == |labels.Keys| <= 3;
    FixedTextIsValid();
    hide ValidPart, Printable;
  }

  function LabelsOf(counter: TrafficCounter): Labels
    requires Safe(counter)
  {
    LabelsAreValid(counter);
    map["scope" := counter.scope, "direction" := counter.direction, counter.identityLabel := counter.identityValue]
  }

  function Observations(counters: seq<TrafficCounter>, at: Timestamp, resetId: Name): seq<CounterObservation>
    requires forall i | 0 <= i < |counters| :: Safe(counters[i])
  {
    seq(|counters|, i requires 0 <= i < |counters| =>
      CounterObservation(at, Series("xray", "traffic_bytes_total", LabelsOf(counters[i])), counters[i].value, resetId))
  }

  lemma AcceptedIsSafe(item: Item, digest: string -> string)
    requires IsDigest(digest) && Accepted(item, digest).Some?
    ensures Safe(Accepted(item, digest).value)
  {
    var raw := Split(item.name.value)[1];
    assert |digest(raw)| == 24 && Printable(digest(raw));
    assert Printable("usr_" + digest(raw)) && Printable("tag_" + digest(raw));
    assert Pseudonym("usr", digest, raw) == "usr_" + digest(raw);
    assert Pseudonym("tag", digest, raw) == "tag_" + digest(raw);
  }

  lemma {:induction false} LastIsSafe(items: seq<Item>, key: Key, digest: string -> string)
    requires IsDigest(digest) && LastOf(items, key, digest).Some?
    ensures Safe(LastOf(items, key, digest).value)
  {
    var last := Accepted(items[|items| - 1], digest);
    if last.Some? && KeyOf(last.value) == key {
      AcceptedIsSafe(items[|items| - 1], digest);
    } else {
      LastIsSafe(items[..|items| - 1], key, digest);
    }
  }

  /** Different keys make different label maps. */
  lemma LabelsTellKeysApart(a: TrafficCounter, b: TrafficCounter)
    requires Safe(a) && Safe(b) && LabelsOf(a) == LabelsOf(b)
    ensures KeyOf(a) == KeyOf(b)
  {
    var m, n := LabelsOf(a), LabelsOf(b);
    assert m["scope"] == a.scope && n["scope"] == b.scope;
    assert m["direction"] == a.direction && n["direction"] == b.direction;
    assert a.identityLabel in n && b.identityLabel in m;
    assert m[a.identityLabel] == a.identityValue && n[b.identityLabel] == b.identityValue;
  }

  /** What the parser returns is safe to store and names no counter twice. */
  lemma ParsedCountersAreDistinct(items: seq<Item>, digest: string -> string, counters: seq<TrafficCounter>,
                                  at: Timestamp, resetId: Name)
    requires IsDigest(digest) && IsParsed(items, digest, counters)
    ensures forall i | 0 <= i < |counters| :: Safe(counters[i])
    ensures DistinctCounters(Observations(counters, at, resetId))
  {
    TupleOrder();
    var keys := ListedKeys(items, digest);
    forall i | 0 <= i < |counters| ensures Safe(counters[i]) && KeyOf(counters[i]) == keys[i] {
      assert LastOf(items, keys[i], digest) == Some(counters[i]);
      LastIsSafe(items, keys[i], digest);
      EveryKeyHasALast(items, keys[i], digest);
    }
    var batch := Observations(counters, at, resetId);
    forall i, j | 0 <= i < j < |batch| ensures batch[i].series != batch[j].series {
      assert TupleLess(keys[i], keys[j]);
      if batch[i].series == batch[j].series {
        LabelsTellKeysApart(counters[i], counters[j]);
      }
    }
  }

  predicate LaterThanXray(cursors: Cursors, at: real) {
    forall series | series in cursors && series.source == "xray" :: at > cursors[series].at
  }

  /** An Xray snapshot always commits: whatever the payload, duplicates included, a snapshot taken
      after the Xray cursors is accepted and moves exactly the cursors of its own counters. */
  lemma SnapshotAlwaysCommits(items: seq<Item>, digest: string -> string, counters: seq<TrafficCounter>, at: Timestamp,
                              resetId: Name, t: Tables)
    requires IsDigest(digest) && IsParsed(items, digest, counters) && LaterThanXray(t.cursors, at)
    ensures forall i | 0 <= i < |counters| :: Safe(counters[i])
    ensures Commit(t, Batch([], Observations(counters, at, resetId), [])).Done?
    ensures AdvancesExactly(t.cursors, Observations(counters, at, resetId),
                            Commit(t, Batch([], Observations(counters, at, resetId), [])).value.tables.cursors)
    ensures CountersStand(counters, at, resetId,
                          Commit(t, Batch([], Observations(counters, at, resetId), [])).value.tables.cursors)
  {
    ParsedCountersAreDistinct(items, digest, counters, at, resetId);
    DistinctLaterBatchCommits(t.cursors, Observations(counters, at, resetId));
    hide RecordAll;
    ObservedStand(t.cursors, counters, at, resetId,
                  Commit(t, Batch([], Observations(counters, at, resetId), [])).value.tables.cursors);
  }

  /** A counter stands at its parsed value, under its scope, its direction and its one identity. */
  predicate StandsAt(counter: TrafficCounter, at: Timestamp, resetId: Name, cursors: Cursors) {
    exists series :: series in cursors && series.source == "xray" && series.name == "traffic_bytes_total"
      && series.labels == map["scope" := counter.scope, "direction" := counter.direction,
                              counter.identityLabel := counter.identityValue]
      && cursors[series] == Cursor(resetId, counter.value, at)
  }

  predicate CountersStand(counters: seq<TrafficCounter>, at: Timestamp, resetId: Name, cursors: Cursors) {
    forall i | 0 <= i < |counters| :: StandsAt(counters[i], at, resetId, cursors)
  }

  lemma ObservedStand(before: Cursors, counters: seq<TrafficCounter>, at: Timestamp, resetId: Name, after: Cursors)
    requires forall i | 0 <= i < |counters| :: Safe(counters[i])
    requires AdvancesExactly(before, Observations(counters, at, resetId), after)
    ensures CountersStand(counters, at, resetId, after)
  {
    var observed := Observations(counters, at, resetId);
    forall i | 0 <= i < |counters| ensures StandsAt(counters[i], at, resetId, after) {
      var series := observed[i].series;
      assert AgreeOn(after, before[series := Cursor(resetId, counters[i].value, at)], series);
      assert series in after && after[series] == Cursor(resetId, counters[i].value, at);
      assert series.labels == LabelsOf(counters[i]);
    }
  }

  // ---------- one cycle, one batch ----------

  /** What the other collector of counters contributes: distinct host counters, each after its cursor. */
  predicate FreshHost(cursors: Cursors, host: seq<CounterObservation>) {
    && DistinctCounters(host) && AllLater(cursors, host)
    && forall i | 0 <= i < |host| :: host[i].series.source == "host"
  }

  lemma JoinedCounters(cursors: Cursors, host: seq<CounterObservation>, xray: seq<CounterObservation>, at: real)
    requires FreshHost(cursors, host) && DistinctCounters(xray) && LaterThanXray(cursors, at)
    requires forall i | 0 <= i < |xray| :: xray[i].series.source == "xray" && xray[i].at == at
    ensures DistinctCounters(host + xray) && AllLater(cursors, host + xray)
  {
    var all := host + xray;
    forall i, j | 0 <= i < j < |all| ensures all[i].series != all[j].series {
      if i >= |host| {
        assert xray[i - |host|].series != xray[j - |host|].series;
      } else if j >= |host| {
        assert all[i].series.source == "host" && all[j].series.source == "xray";
        assert "host"[0] != "xray"[0];
      }
    }
    forall i | 0 <= i < |all| && all[i].series in cursors ensures all[i].at > cursors[all[i].series].at {
      if i < |host| {
        assert all[i] == host[i];
      } else {
        assert all[i] == xray[i - |host|];
      }
    }
  }

  /** A whole cycle always commits: host and Xray counters in one batch, with any gauges and health
      records, whatever the Xray payload, when the clock has moved past the cursors. */
  lemma CycleAlwaysCommits(items: seq<Item>, digest: string -> string, counters: seq<TrafficCounter>, at: Timestamp,
                           resetId: Name, t: Tables, host: seq<CounterObservation>, gauges: seq<GaugeObservation>,
                           health: seq<HealthObservation>)
    requires IsDigest(digest) && IsParsed(items, digest, counters) && LaterThanXray(t.cursors, at)
    requires FreshHost(t.cursors, host)
    ensures forall i | 0 <= i < |counters| :: Safe(counters[i])
    ensures Commit(t, Batch(gauges, host + Observations(counters, at, resetId), health)).Done?
    ensures AdvancesExactly(t.cursors, host + Observations(counters, at, resetId),
                            Commit(t, Batch(gauges, host + Observations(counters, at, resetId),
                                health)).value.tables.cursors)
  {
    hide IsParsed, FreshHost, AdvancesExactly, AllLater, DistinctCounters, RecordAll;
    ParsedCountersAreDistinct(items, digest, counters, at, resetId);
    var xray := Observations(counters, at, resetId);
    JoinedCounters(t.cursors, host, xray, at);
    DistinctLaterBatchCommits(t.cursors, host + xray);
  }
}
