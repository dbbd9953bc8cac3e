/** The canonical text of a label map (json.dumps with sorted keys, no spaces and no ASCII
    escaping) and the identity of a counter built from it. */
module LabelsJson {
  import opened Models
  import opened Orders

  // ---------- encoding ----------

  function HexDigit(n: int): char
    requires 0 <= n < 16
  {
    "0123456789abcdef"[n]
  }

  function EscapeChar(c: char): string {
    if c == '\"' then "\\\""
    else if c == '\\' then "\\\\"
    else if c == '\n' then "\\n"
    else if c == '\r' then "\\r"
    else if c == '\t' then "\\t"
    else if c == '\U{0008}' then "\\b"
    else if c == '\U{000C}' then "\\f"
    else if c < ' ' then "\\u00" + [HexDigit(c as int / 16), HexDigit(c as int % 16)]
    else [c]
  }

  function Escape(s: string): string {
    if s == "" then "" else EscapeChar(s[0]) + Escape(s[1..])
  }

  function Quote(s: string): string {
    "\"" + Escape(s) + "\""
  }

  /** What JSON demands is escaped and nothing else: quotes, backslashes and control characters. */
  lemma EscapesAre(c: char)
    ensures EscapeChar(c) == [c] <==> c >= ' ' && c != '\"' && c != '\\'
    ensures EscapeChar(c) != [c] ==> EscapeChar(c)[0] == '\\' && |EscapeChar(c)| in {2, 6}
    ensures EscapeChar('\"') == ['\\', '\"'] && EscapeChar('\\') == ['\\', '\\']
    ensures EscapeChar(10 as char) == ['\\', 'n'] && EscapeChar(13 as char) == ['\\', 'r']
    ensures EscapeChar(9 as char) == ['\\', 't'] && EscapeChar(8 as char) == ['\\', 'b']
    ensures EscapeChar(12 as char) == ['\\', 'f']
    ensures |EscapeChar(c)| == 6 ==>
              EscapeChar(c)[..4] == ['\\', 'u', '0', '0'] && EscapeChar(c)[4] == (if c < 16 as char then '0' else '1')
  {
  }

  type Member = (string, string)

  function EncodeMember(member: Member): string {
    Quote(member.0) + ":" + Quote(member.1)
  }

  function EncodeMembers(members: seq<Member>): string {
    if members == [] then ""
    else if |members| == 1 then EncodeMember(members[0])
    else EncodeMember(members[0]) + "," + EncodeMembers(members[1..])
  }

  /** sorted(items): pairs compare as tuples of strings. */
  predicate MemberLess(a: Member, b: Member) {
    TupleLess([a.0, a.1], [b.0, b.1])
  }

  function SortMembers(members: seq<Member>): seq<Member> {
    if members == [] then [] else Insert(MemberLess, SortMembers(members[..|members| - 1]), members[|members| - 1])
  }

  /** The text stored for a dictionary whose items come in the given order. */
  function Encode(members: seq<Member>): string {
    "{" + EncodeMembers(SortMembers(members)) + "}"
  }

  // ---------- decoding (sections 4 and 7 of RFC 8259) ----------

  function HexValue(c: char): Option<int> {
    if '0' <= c <= '9' then Some(c as int - '0' as int)
    else if 'a' <= c <= 'f' then Some(c as int - 'a' as int + 10)
    else if 'A' <= c <= 'F' then Some(c as int - 'A' as int + 10)
    else None
  }

  /** The character of a four-digit escape; surrogate halves stand for no character of their own. */
  function UnicodeEscape(s: string): Option<char>
    requires |s| == 4
  {
    match (HexValue(s[0]), HexValue(s[1]), HexValue(s[2]), HexValue(s[3]))
    case (Some(a), Some(b), Some(c), Some(d)) =>
      var code := ((a * 16 + b) * 16 + c) * 16 + d;
      if 0 <= code < 0xD800 || 0xE000 <= code < 0x10000 then Some(code as char) else None
    case _ => None
  }

  /** Hexadecimal digits of either case. */
  lemma HexValueIs(n: nat)
    requires n < 16
    ensures HexValue("0123456789abcdef"[n]) == Some(n) && HexValue("0123456789ABCDEF"[n]) == Some(n)
    ensures forall c: char :: HexValue(c).Some? ==> c in "0123456789abcdef" || c in "0123456789ABCDEF"
  {
    var lower, upper := "0123456789abcdef", "0123456789ABCDEF";
    assert lower[n] == if n < 10 then ('0' as int + n) as char else ('a' as int + n - 10) as char;
    assert upper[n] == if n < 10 then ('0' as int + n) as char else ('A' as int + n - 10) as char;
    forall c: char | HexValue(c).Some? ensures c in lower || c in upper {
      var m := HexValue(c).value;
      assert 0 <= m < 16 && (lower[m] == c || upper[m] == c);
    }
  }

  /** A four-digit escape is the character with that number, and no character for half a surrogate pair. */
  lemma UnicodeEscapeIs(a: nat, b: nat, c: nat, d: nat)
    requires a < 16 && b < 16 && c < 16 && d < 16
    ensures var code, digits := a * 4096 + b * 256 + c * 16 + d, "0123456789abcdef";
            UnicodeEscape([digits[a], digits[b], digits[c], digits[d]]) ==
            if 0xD800 <= code <= 0xDFFF then None else Some(code as char)
  {
    HexValueIs(a);
    HexValueIs(b);
    HexValueIs(c);
    HexValueIs(d);
    hide HexValue;
  }

  /** The character an escape denotes and the text after it; `s` starts after the backslash. */
  function Unescape(s: string): (r: Option<(char, string)>)
    ensures r.Some? ==> |r.value.1| < |s|
  {
    if s == "" then None
    else if s[0] == '\"' || s[0] == '\\' || s[0] == '/' then Some((s[0], s[1..]))
    else if s[0] == 'b' then Some(('\U{0008}', s[1..]))
    else if s[0] == 'f' then Some(('\U{000C}', s[1..]))
    else if s[0] == 'n' then Some(('\n', s[1..]))
    else if s[0] == 'r' then Some(('\r', s[1..]))
    else if s[0] == 't' then Some(('\t', s[1..]))
    else if s[0] == 'u' && |s| >= 5 then
      match UnicodeEscape(s[1..5])
      case Some(c) => Some((c, s[5..]))
      case None => None
    else None
  }

  function Prepend(c: char, parsed: Option<(string, string)>): Option<(string, string)> {
    if parsed.Some? then Some(([c] + parsed.value.0, parsed.value.1)) else None
  }

  /** A string and the text after its closing quote; `s` starts after the opening quote. */
  function ParseString(s: string): (r: Option<(string, string)>)
    ensures r.Some? ==> |r.value.1| < |s|
    decreases |s|
  {
    if s == "" then None
    else if s[0] == '\"' then Some(("", s[1..]))
    else if s[0] == '\\' then
      match Unescape(s[1..])
      case Some((c, rest)) => Prepend(c, ParseString(rest))
      case None => None
    else if s[0] < ' ' then None
    else Prepend(s[0], ParseString(s[1..]))
  }

  /** One member of an object and the text after it. */
  function ParseMember(s: string): (r: Option<(Member, string)>)
    ensures r.Some? ==> |r.value.1| < |s|
  {
    if s == "" || s[0] != '\"' then None
    else
      match ParseString(s[1..])
      case None => None
      case Some((key, rest)) =>
        if |rest| < 2 || rest[0] != ':' || rest[1] != '\"' then None
        else
          match ParseString(rest[2..])
          case None => None
          case Some((value, after)) => Some(((key, value), after))
  }

  /** Members up to the brace that ends the object and the text. */
  function ParseMembers(s: string): Option<seq<Member>>
    decreases |s|
  {
    match ParseMember(s)
    case None => None
    case Some((member, rest)) =>
      if rest == "}" then Some([member])
      else if rest != "" && rest[0] == ',' then
        match ParseMembers(rest[1..])
        case None => None
        case Some(members) => Some([member] + members)
      else None
  }

  /** A repeated key takes its last value, as in Python. */
  function ToMap(members: seq<Member>): map<string, string> {
    if members == [] then map[]
    else ToMap(members[..|members| - 1])[members[|members| - 1].0 := members[|members| - 1].1]
  }

  function Decode(s: string): Option<map<string, string>> {
    if s == "{}" then Some(map[])
    else if s == "" || s[0] != '{' then None
    else
      match ParseMembers(s[1..])
      case None => None
      case Some(members) => Some(ToMap(members))
  }

  // ---------- strings round-trip ----------

  lemma HexRoundTrip(n: int)
    requires 0 <= n < 16
    ensures HexValue(HexDigit(n)) == Some(n)
  {
    var digits := "0123456789abcdef";
    assert digits[n] == if n < 10 then ('0' as int + n) as char else ('a' as int + n - 10) as char;
  }

  predicate HexEscaped(c: char) {
    c < ' ' && c != '\n' && c != '\r' && c != '\t' && c != '\U{0008}' && c != '\U{000C}'
  }

  lemma HexEscapeRoundTrip(c: char, tail: string)
    requires HexEscaped(c)
    ensures Unescape(EscapeChar(c)[1..] + tail) == Some((c, tail))
  {
    var high, low := HexDigit(c as int / 16), HexDigit(c as int % 16);
    var text := EscapeChar(c)[1..] + tail;
    assert text == ['u', '0', '0', high, low] + tail;
    assert text[1..5] == ['0', '0', high, low];
    assert text[5..] == tail;
    HexRoundTrip(c as int / 16);
    HexRoundTrip(c as int % 16);
    assert UnicodeEscape(['0', '0', high, low]) == Some(c);
  }

  lemma ShortEscapeRoundTrip(c: char, tail: string)
    requires |EscapeChar(c)| == 2
    ensures Unescape(EscapeChar(c)[1..] + tail) == Some((c, tail))
  {
    var text := EscapeChar(c)[1..] + tail;
    assert text == [EscapeChar(c)[1]] + tail;
    assert text[1..] == tail;
  }

  /** Reading what one character was written as gives the character back. */
  lemma CharRoundTrip(c: char, tail: string)
    ensures ParseString(EscapeChar(c) + tail) == Prepend(c, ParseString(tail))
  {
    var text := EscapeChar(c) + tail;
    if EscapeChar(c) == [c] {
      assert text[1..] == tail;
    } else {
      assert text[1..] == EscapeChar(c)[1..] + tail;
      if HexEscaped(c) {
        HexEscapeRoundTrip(c, tail);
      } else {
        ShortEscapeRoundTrip(c, tail);
      }
      hide Unescape, HexDigit;
    }
  }

  lemma {:induction false} StringRoundTrip(s: string, tail: string)
    ensures ParseString(Escape(s) + "\"" + tail) == Some((s, tail))
  {
    if s == "" {
      var text := Escape(s) + "\"" + tail;
      assert text == "\"" + tail;
      assert text[1..] == tail;
    } else {
      var rest := Escape(s[1..]) + "\"" + tail;
      StringRoundTrip(s[1..], tail);
      CharRoundTrip(s[0], rest);
      assert Escape(s) + "\"" + tail == EscapeChar(s[0]) + rest;
      assert [s[0]] + s[1..] == s;
    }
  }

  lemma MemberRoundTrip(member: Member, tail: string)
    ensures ParseMember(EncodeMember(member) + tail) == Some((member, tail))
  {
    hide ParseString, Escape;
    var text := EncodeMember(member) + tail;
    var second := "\"" + Escape(member.1) + "\"" + tail;
    assert text[1..] == Escape(member.0) + "\"" + (":" + second);
    StringRoundTrip(member.0, ":" + second);
    assert (":" + second)[2..] == Escape(member.1) + "\"" + tail;
    StringRoundTrip(member.1, tail);
  }

  /** One member in front of others that read back. */
  lemma OneMoreMember(member: Member, encoded: string, members: seq<Member>)
    requires ParseMembers(encoded + "}") == Some(members)
    ensures ParseMembers(EncodeMember(member) + "," + encoded + "}") == Some([member] + members)
  {
    hide ParseMember, EncodeMember;
    var tail := "," + encoded + "}";
    MemberRoundTrip(member, tail);
    assert EncodeMember(member) + "," + encoded + "}" == EncodeMember(member) + tail;
    assert tail[1..] == encoded + "}";
  }

  lemma {:induction false} MembersRoundTrip(members: seq<Member>)
    requires members != []
    ensures ParseMembers(EncodeMembers(members) + "}") == Some(members)
  {
    hide ParseMember, EncodeMember;
    if |members| == 1 {
      MemberRoundTrip(members[0], "}");
      assert members == [members[0]];
    } else {
      MembersRoundTrip(members[1..]);
      hide ParseMembers;
      OneMoreMember(members[0], EncodeMembers(members[1..]), members[1..]);
      assert members == [members[0]] + members[1..];
    }
  }

  // ---------- dictionaries round-trip ----------

  /** The items of a dictionary, in some order. */
  predicate ItemsOf(members: seq<Member>, labels: map<string, string>) {
    && (forall i, j | 0 <= i < j < |members| :: members[i].0 != members[j].0)
    && Elements(members) == set key | key in labels :: (key, labels[key])
  }

  lemma MemberOrder()
    ensures StrictTotal(MemberLess)
  {
    TupleOrder();
    forall a: Member, b: Member, c: Member
      ensures !MemberLess(a, a)
      ensures MemberLess(a, b) || MemberLess(b, a) || a == b
      ensures MemberLess(a, b) && MemberLess(b, c) ==> MemberLess(a, c)
    {
      assert TupleLess([a.0, a.1], [b.0, b.1]) || TupleLess([b.0, b.1], [a.0, a.1]) || [a.0, a.1] == [b.0, b.1];
      assert [a.0, a.1] == [b.0, b.1] ==> [a.0, a.1][0] == [b.0, b.1][0] && [a.0, a.1][1] == [b.0, b.1][1];
      assert !TupleLess([a.0, a.1], [a.0, a.1]);
    }
  }

  predicate Distinct(members: seq<Member>) {
    forall i, j | 0 <= i < j < |members| :: members[i] != members[j]
  }

  lemma {:induction false} SortedListing(members: seq<Member>)
    requires Distinct(members)
    ensures Ascending(MemberLess, SortMembers(members))
    ensures Elements(SortMembers(members)) == Elements(members)
    ensures |SortMembers(members)| == |members|
  {
    if members == [] {
    } else {
      var front, last := members[..|members| - 1], members[|members| - 1];
      SortedListing(front);
      MemberOrder();
      assert members == front + [last];
      ElementsSnoc(front, last);
      InsertAscending(MemberLess, SortMembers(front), last);
      InsertElements(MemberLess, SortMembers(front), last);
    }
  }

  /** The stored text does not depend on the order the labels were inserted in. */
  lemma InsertionOrderIsForgotten(a: seq<Member>, b: seq<Member>, labels: map<string, string>)
    requires ItemsOf(a, labels) && ItemsOf(b, labels)
    ensures Encode(a) == Encode(b)
  {
    SortedListing(a);
    SortedListing(b);
    MemberOrder();
    AscendingUnique(MemberLess, SortMembers(a), SortMembers(b));
  }

  lemma LabelsHaveItems(members: seq<Member>, labels: map<string, string>)
    requires ItemsOf(members, labels)
    ensures labels != map[] ==> members != []
  {
    if labels != map[] {
      var key :| key in labels;
      assert (key, labels[key]) in Elements(members);
    }
  }

  /** Distinct keys: the map of a list of items holds exactly its items. */
  lemma {:induction false} MapOfItems(members: seq<Member>, labels: map<string, string>)
    requires ItemsOf(members, labels)
    ensures ToMap(members) == labels
  {
    if members == [] {
      LabelsHaveItems(members, labels);
    } else {
      var front, last := members[..|members| - 1], members[|members| - 1];
      var rest := labels - {last.0};
      assert members == front + [last];
      ElementsSnoc(front, last);
      assert last in Elements(members);
      assert labels[last.0] == last.1;
      forall member | member in Elements(front) ensures member in (set key | key in rest :: (key, rest[key])) {
        var i :| 0 <= i < |front| && front[i] == member;
        assert members[i].0 != members[|front|].0;
        assert member in Elements(members);
        assert member.0 in rest && rest[member.0] == member.1;
      }
      forall key | key in rest ensures (key, rest[key]) in Elements(front) {
        assert (key, labels[key]) in Elements(members);
      }
      MapOfItems(front, rest);
      assert rest[last.0 := last.1] == labels;
    }
  }

  lemma AscendingItems(members: seq<Member>, labels: map<string, string>)
    requires ItemsOf(members, labels)
    ensures ItemsOf(SortMembers(members), labels)
  {
    SortedListing(members);
    MemberOrder();
    var s := SortMembers(members);
    forall i, j | 0 <= i < j < |s| ensures s[i].0 != s[j].0 {
      assert MemberLess(s[i], s[j]);
      assert s[i] in Elements(s) && s[j] in Elements(s);
      assert s[i] in Elements(members) && s[j] in Elements(members);
      assert labels[s[i].0] == s[i].1 && labels[s[j].0] == s[j].1;
      assert s[i] != s[j];
    }
  }

  lemma {:induction false} EncodedMembersNotEmpty(members: seq<Member>)
    ensures EncodeMembers(members) == "" <==> members == []
  {
  }

  /** A braced list of members reads back as its map. */
  lemma ObjectRoundTrip(members: seq<Member>)
    ensures Decode("{" + EncodeMembers(members) + "}") == Some(ToMap(members))
  {
    hide ParseMembers, EncodeMembers;
    var inner := EncodeMembers(members);
    var text := "{" + inner + "}";
    EncodedMembersNotEmpty(members);
    if members == [] {
      assert text == "{}";
    } else {
      MembersRoundTrip(members);
      assert text[1..] == inner + "}";
      assert |text| > |"{}"|;
      hide ToMap;
    }
  }

  /** Decoding the stored text returns the label map. */
  lemma LabelsRoundTrip(members: seq<Member>, labels: map<string, string>)
    requires ItemsOf(members, labels)
    ensures Decode(Encode(members)) == Some(labels)
  {
    hide SortMembers, ToMap, ItemsOf, EncodeMembers, Decode;
    var s := SortMembers(members);
    AscendingItems(members, labels);
    MapOfItems(s, labels);
    ObjectRoundTrip(s);
  }

  // ---------- the identity of a counter ----------

  const NUL: char := '\U{0000}'

  /** What is hashed into a counter key. */
  function KeyMaterial(source: string, name: string, labels: string): string {
    source + [NUL] + name + [NUL] + labels
  }

  /** The parts are separated by the character zero. */
  lemma SeparatedByZero(source: string, name: string, labels: string)
    ensures KeyMaterial(source, name, labels) == source + [0 as char] + name + [0 as char] + labels
  {
  }

  predicate NoNul(s: string) {
    forall i | 0 <= i < |s| :: s[i] != NUL
  }

  /** Text without NUL before a NUL is delimited by it. */
  lemma Delimited(a: string, b: string, x: string, y: string)
    requires NoNul(a) && NoNul(b) && a + [NUL] + x == b + [NUL] + y
    ensures a == b && x == y
  {
    var s, t := a + [NUL] + x, b + [NUL] + y;
    assert s[|a|] == NUL && t[|b|] == NUL;
    assert forall i | 0 <= i < |a| :: s[i] == a[i];
    assert forall i | 0 <= i < |b| :: t[i] == b[i];
    assert |a| == |b|;
    assert a == s[..|a|] && b == t[..|b|];
    assert x == s[|a| + 1..] && y == t[|b| + 1..];
  }

  lemma NamesHaveNoNul(name: Name)
    ensures NoNul(name)
  {
  }

  /** Two counters share key material exactly when source, name and labels are the same,
      in whatever order their labels were inserted. */
  lemma KeyMaterialIdentifies(a: Series, b: Series, aLabels: seq<Member>, bLabels: seq<Member>)
    requires ItemsOf(aLabels, a.labels) && ItemsOf(bLabels, b.labels)
    ensures KeyMaterial(a.source, a.name, Encode(aLabels)) == KeyMaterial(b.source, b.name, Encode(bLabels)) <==> a == b
  {
    hide Encode, Decode, NoNul, ItemsOf;
    var s, t := KeyMaterial(a.source, a.name, Encode(aLabels)), KeyMaterial(b.source, b.name, Encode(bLabels));
    if s == t {
      NamesHaveNoNul(a.source);
      NamesHaveNoNul(b.source);
      NamesHaveNoNul(a.name);
      NamesHaveNoNul(b.name);
      var x, y := a.name + [NUL] + Encode(aLabels), b.name + [NUL] + Encode(bLabels);
      assert s == a.source + [NUL] + x && t == b.source + [NUL] + y;
      Delimited(a.source, b.source, x, y);
      Delimited(a.name, b.name, Encode(aLabels), Encode(bLabels));
      LabelsRoundTrip(aLabels, a.labels);
      LabelsRoundTrip(bLabels, b.labels);
    } else if a == b {
      InsertionOrderIsForgotten(aLabels, bLabels, a.labels);
    }
  }
}
