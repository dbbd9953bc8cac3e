/** Bounded alarm paging against a server that may answer anything, including pages that lead
    back to themselves. */
module AlarmPages {
  import opened Models

  const MAX_PAGES: nat := 100
  const MAX_ALARMS: nat := 10000
  const MAX_TOKEN: nat := 1024

  /** An alarm of a page: an object with the text of its state, or something malformed. */
  datatype RawAlarm = Malformed | Alarm(state: string)

  type TokenText = text: string | text != "" witness "t"

  /** The `nextPageToken` of a page: absent or empty, a non-empty string, or some other true value. */
  datatype NextToken = NoToken | Token(text: TokenText) | OtherToken

  datatype Page = Page(alarms: seq<RawAlarm>, next: NextToken)

  /** One answer; `Unusable` is a non-mapping, or a mapping without an alarm sequence. */
  datatype Response = Raised | Unusable | Usable(page: Page)

  /** The server sees the number of the request and the token sent; it may answer each differently. */
  type Server = (nat, Option<string>) -> Response

  /** What is kept of an alarm: its state, and nothing at all of a malformed entry. */
  datatype KeptAlarm = Empty | State(state: string)

  function Keep(alarm: RawAlarm): KeptAlarm {
    match alarm
    case Alarm(state) => State(state)
    case Malformed => Empty
  }

  function KeepAll(alarms: seq<RawAlarm>): seq<KeptAlarm> {
    seq(|alarms|, i requires 0 <= i < |alarms| => Keep(alarms[i]))
  }

  /** The mapping handed to the alarm evaluation. */
  datatype Collected = Failed | NoAlarmList | Alarms(states: seq<KeptAlarm>, flagged: bool)

  // ---------- the chain of pages ----------

  /** The token of request i. */
  function SentToken(pages: seq<Page>, i: nat): Option<string>
    requires i <= |pages|
  {
    if i > 0 && pages[i - 1].next.Token? then Some(pages[i - 1].next.text) else None
  }

  /** Page i answers the token of the page before it. */
  predicate Follows(server: Server, pages: seq<Page>, i: nat)
    requires i < |pages|
  {
    server(i, SentToken(pages, i)) == Usable(pages[i]) && (i > 0 ==> pages[i - 1].next.Token?)
  }

  predicate Chain(server: Server, pages: seq<Page>) {
    forall i | 0 <= i < |pages| :: Follows(server, pages, i)
  }

  function AllStates(pages: seq<Page>): seq<KeptAlarm> {
    if pages == [] then [] else AllStates(pages[..|pages| - 1]) + KeepAll(pages[|pages| - 1].alarms)
  }

  predicate AcceptableTokens(pages: seq<Page>) {
    && (forall i | 0 <= i < |pages| && pages[i].next.Token? :: |pages[i].next.text| <= MAX_TOKEN)
    && forall i, j | 0 <= i < j < |pages| && pages[i].next.Token? && pages[j].next.Token? ::
       pages[i].next.text != pages[j].next.text
  }

  /** A chain that ends by itself, within every limit. */
  predicate Complete(server: Server, pages: seq<Page>) {
    && 0 < |pages| <= MAX_PAGES
    && Chain(server, pages)
    && pages[|pages| - 1].next == NoToken
    && AcceptableTokens(pages)
    && |AllStates(pages)| <= MAX_ALARMS
  }

  /** Every page but the last has a token. */
  predicate Linked(pages: seq<Page>) {
    forall i | 0 <= i < |pages| - 1 :: pages[i].next.Token?
  }

  predicate Answered(server: Server, pages: seq<Page>) {
    forall i | 0 <= i < |pages| :: server(i, SentToken(pages, i)) == Usable(pages[i])
  }

  lemma ChainIs(server: Server, pages: seq<Page>)
    ensures Chain(server, pages) <==> Answered(server, pages) && Linked(pages)
  {
    hide SentToken;
    if Chain(server, pages) {
      forall i | 0 <= i < |pages| - 1 ensures pages[i].next.Token? {
        assert Follows(server, pages, i + 1);
      }
      forall i | 0 <= i < |pages| ensures server(i, SentToken(pages, i)) == Usable(pages[i]) {
        assert Follows(server, pages, i);
      }
    }
  }

  lemma TokensAre(pages: seq<Page>)
    requires Linked(pages) && pages != [] && pages[|pages| - 1].next == NoToken
    ensures AcceptableTokens(pages) <==>
            && (forall i | 0 <= i < |pages| - 1 :: |pages[i].next.text| <= 1024)
            && forall i, j | 0 <= i < j < |pages| - 1 :: pages[i].next.text != pages[j].next.text
  {
  }

  /** The limits in numbers: 100 pages, tokens of 1024 characters and none twice, 10000 alarms. */
  lemma CompleteIs(server: Server, pages: seq<Page>)
    ensures Complete(server, pages) <==>
            && 0 < |pages| <= 100 && Answered(server, pages) && Linked(pages)
            && pages[|pages| - 1].next == NoToken
            && (forall i | 0 <= i < |pages| - 1 :: |pages[i].next.text| <= 1024)
            && (forall i, j | 0 <= i < j < |pages| - 1 :: pages[i].next.text != pages[j].next.text)
            && |AllStates(pages)| <= 10000
  {
    hide Chain, AcceptableTokens, Answered, AllStates;
    ChainIs(server, pages);
    if Linked(pages) && pages != [] && pages[|pages| - 1].next == NoToken {
      TokensAre(pages);
    }
  }

  /** Why a chain is not followed any further. */
  predicate Stopped(server: Server, pages: seq<Page>) {
    || |pages| == MAX_PAGES
    || (pages != [] && !pages[|pages| - 1].next.Token?)
    || !server(|pages|, SentToken(pages, |pages|)).Usable?
    || !AcceptableTokens(pages)
    || |AllStates(pages)| > MAX_ALARMS
  }

  lemma ChainSnoc(server: Server, pages: seq<Page>, page: Page)
    requires Chain(server, pages) && (pages != [] ==> pages[|pages| - 1].next.Token?)
    requires server(|pages|, SentToken(pages, |pages|)) == Usable(page)
    ensures Chain(server, pages + [page])
  {
    var all := pages + [page];
    forall i | 0 <= i < |all| ensures Follows(server, all, i) {
      assert i < |pages| ==> Follows(server, pages, i);
    }
  }

  lemma StatesSnoc(pages: seq<Page>, page: Page)
    ensures AllStates(pages + [page]) == AllStates(pages) + KeepAll(page.alarms)
  {
    assert (pages + [page])[..|pages + [page]| - 1] == pages;
  }

  predicate Remembers(seen: set<string>, pages: seq<Page>) {
    && (forall i | 0 <= i < |pages| :: pages[i].next.Token? && pages[i].next.text in seen)
    && forall text | text in seen :: exists i :: 0 <= i < |pages| && pages[i].next.Token? && pages[i].next.text == text
  }

  lemma RememberToken(seen: set<string>, pages: seq<Page>, page: Page)
    requires Remembers(seen, pages) && AcceptableTokens(pages) && page.next.Token?
    ensures AcceptableTokens(pages + [page]) <==> |page.next.text| <= MAX_TOKEN && page.next.text !in seen
    ensures Remembers(seen + {page.next.text}, pages + [page])
  {
    var all := pages + [page];
    assert forall i | 0 <= i < |pages| :: all[i] == pages[i];
    assert all[|pages|] == page;
    if page.next.text in seen {
      var i :| 0 <= i < |pages| && pages[i].next.Token? && pages[i].next.text == page.next.text;
      assert all[i].next.text == all[|pages|].next.text;
    }
    forall text | text in seen + {page.next.text}
      ensures exists i :: 0 <= i < |all| && all[i].next.Token? && all[i].next.text == text
    {
      if text in seen {
        var i :| 0 <= i < |pages| && pages[i].next.Token? && pages[i].next.text == text;
        assert all[i].next.text == text;
      } else {
        assert all[|pages|].next.text == text;
      }
    }
  }

  /** A last page without a token adds no token to object to. */
  lemma LastTokenless(pages: seq<Page>, page: Page)
    requires AcceptableTokens(pages) && page.next.NoToken?
    ensures AcceptableTokens(pages + [page])
  {
    assert forall i | 0 <= i < |pages| :: (pages + [page])[i] == pages[i];
  }

  predicate SentOnce(pages: seq<Page>, asked: nat) {
    asked <= |pages| + 1 && forall i, j | 0 <= i < j < asked :: SentToken(pages, i) != SentToken(pages, j)
  }

  lemma TokensSentOnce(seen: set<string>, pages: seq<Page>)
    requires AcceptableTokens(pages) && Remembers(seen, pages)
    ensures SentOnce(pages, |pages| + 1)
  {
    forall i, j | 0 <= i < j < |pages| + 1 ensures SentToken(pages, i) != SentToken(pages, j) {
      assert i > 0 ==> pages[i - 1].next.text != pages[j - 1].next.text;
    }
  }

  lemma SentSoFar(pages: seq<Page>, page: Page)
    requires SentOnce(pages, |pages| + 1)
    ensures SentOnce(pages + [page], |pages| + 1)
  {
    assert forall i | 0 <= i <= |pages| :: SentToken(pages + [page], i) == SentToken(pages, i);
  }

  /** The alarms there is room for. */
  function Considered(states: seq<KeptAlarm>): seq<KeptAlarm> {
    if |states| <= MAX_ALARMS then states else states[..MAX_ALARMS]
  }

  /** Keeps alarms while there is room. */
  method KeepWithinLimit(states: seq<KeptAlarm>, alarms: seq<RawAlarm>) returns (kept: seq<KeptAlarm>, truncated: bool)
    requires |states| <= MAX_ALARMS
    ensures truncated <==> |states| + |alarms| > 10000
    ensures kept == Considered(states + KeepAll(alarms))
  {
    kept, truncated := states, false;
    for i := 0 to |alarms|
      invariant |kept| == |states| + i <= MAX_ALARMS
      invariant !truncated
      invariant kept == states + KeepAll(alarms[..i])
    {
      if |kept| >= MAX_ALARMS {
        assert KeepAll(alarms)[..i] == KeepAll(alarms[..i]);
        return kept, true;
      }
      kept := kept + [Keep(alarms[i])];
      assert KeepAll(alarms[..i + 1]) == KeepAll(alarms[..i]) + [Keep(alarms[i])];
    }
    assert alarms[..|alarms|] == alarms;
  }

  lemma NothingYet(server: Server)
    ensures Chain(server, []) && AcceptableTokens([]) && Remembers({}, [])
  {
  }

  /** How paging ends: the pages are a chain that is followed as far as it goes, the list is unflagged
      exactly when the chain is complete, and it holds their alarms as far as there is room. */
  predicate Paged(server: Server, pages: seq<Page>, collected: Collected) {
    && Chain(server, pages) && Stopped(server, pages)
    && (collected.Alarms? && !collected.flagged <==> Complete(server, pages))
    && (collected.Alarms? ==> collected.states == Considered(AllStates(pages)))
  }

  /** At most MAX_PAGES requests, no token sent twice, and an unflagged list exactly when the pages
      received are a complete chain. */
  method CollectAlarmPages(server: Server) returns (collected: Collected, ghost pages: seq<Page>, ghost asked: nat)
    ensures |pages| <= asked <= 100 && SentOnce(pages, asked)
    ensures Paged(server, pages, collected)
    ensures collected.Alarms? ==> |collected.states| <= 10000
    ensures collected.Alarms? && !collected.flagged ==>
              exists complete: seq<Page> :: Complete(server, complete) && collected.states == AllStates(complete)
  {
    hide Chain, AcceptableTokens, Remembers, SentOnce, KeepAll;
    var states: seq<KeptAlarm> := [];
    var pageToken: Option<string> := None;
    var seen: set<string> := {};
    pages, asked := [], 0;
    NothingYet(server);
    for number := 0 to MAX_PAGES
      invariant |pages| == asked == number
      invariant Chain(server, pages) && AcceptableTokens(pages) && Remembers(seen, pages)
      invariant number > 0 ==> pages[number - 1].next.Token?
      invariant pageToken == SentToken(pages, number)
      invariant states == AllStates(pages) && |states| <= MAX_ALARMS
    {
      TokensSentOnce(seen, pages);
      asked := asked + 1;
      var response := server(number, pageToken);
      if response.Raised? {
        return Failed, pages, asked;
      }
      if response.Unusable? {
        collected := if states != [] then Alarms(states, true) else NoAlarmList;
        return;
      }
      var page := response.page;
      ChainSnoc(server, pages, page);
      StatesSnoc(pages, page);
      SentSoFar(pages, page);
      KeptLength(page.alarms);
      var kept, truncated := KeepWithinLimit(states, page.alarms);
      if page.next.NoToken? {
        LastTokenless(pages, page);
        return Alarms(kept, truncated), pages + [page], asked;
      }
      if page.next.Token? {
        RememberToken(seen, pages, page);
      }
      pages := pages + [page];
      if page.next.OtherToken? || |page.next.text| > MAX_TOKEN || page.next.text in seen || truncated {
        return Alarms(kept, true), pages, asked;
      }
      states, seen, pageToken := kept, seen + {page.next.text}, Some(page.next.text);
    }
    TokensSentOnce(seen, pages);
    SentFewer(pages);
    collected := Alarms(states, true);
  }

  lemma KeptLength(alarms: seq<RawAlarm>)
    ensures |KeepAll(alarms)| == |alarms|
  {
  }

  lemma SentFewer(pages: seq<Page>)
    requires SentOnce(pages, |pages| + 1)
    ensures SentOnce(pages, |pages|)
  {
  }

  lemma {:induction false} SameChain(server: Server, a: seq<Page>, b: seq<Page>, n: nat)
    requires Chain(server, a) && Chain(server, b) && n <= |a| && n <= |b|
    ensures a[..n] == b[..n]
  {
    if n == 0 {
    } else {
      SameChain(server, a, b, n - 1);
      assert Follows(server, a, n - 1) && Follows(server, b, n - 1);
      if n > 1 {
        assert a[n - 2] == a[..n - 1][n - 2] && b[n - 2] == b[..n - 1][n - 2];
      }
      assert a[..n] == a[..n - 1] + [a[n - 1]] && b[..n] == b[..n - 1] + [b[n - 1]];
    }
  }

  lemma {:induction false} PrefixStates(pages: seq<Page>, n: nat)
    requires n <= |pages|
    ensures |AllStates(pages[..n])| <= |AllStates(pages)|
  {
    if n < |pages| {
      PrefixStates(pages[..|pages| - 1], n);
      assert pages[..|pages| - 1][..n] == pages[..n];
    } else {
      assert pages[..n] == pages;
    }
  }

  lemma ProperPrefixGoesOn(server: Server, complete: seq<Page>, n: nat)
    requires Complete(server, complete) && n < |complete|
    ensures !Stopped(server, complete[..n])
  {
    assert Follows(server, complete, n);
    PrefixStates(complete, n);
  }

  lemma ExtensionHasToken(server: Server, pages: seq<Page>, n: nat)
    requires Chain(server, pages) && 0 < n < |pages|
    ensures pages[..n][n - 1].next.Token?
  {
    assert Follows(server, pages, n);
  }

  /** No complete chain is missed: a chain followed until it stops is the complete one, if there is one. */
  lemma CompleteChainIsFollowed(server: Server, pages: seq<Page>, complete: seq<Page>)
    requires Chain(server, pages) && Stopped(server, pages) && Complete(server, complete)
    ensures pages == complete
  {
    var n := if |pages| <= |complete| then |pages| else |complete|;
    SameChain(server, pages, complete, n);
    assert pages[..|pages|] == pages && complete[..|complete|] == complete;
    if |pages| < |complete| {
      ProperPrefixGoesOn(server, complete, n);
    } else if |complete| < |pages| {
      ExtensionHasToken(server, pages, n);
    }
  }

  // ---------- counting the alarms ----------

  datatype AlarmEvaluation =
    AlarmEvaluation(available: bool, alarms: nat, active: nat, indeterminate: nat, truncated: bool)

  /** The state of a kept alarm; an entry without one has the empty state. */
  function StateText(alarm: KeptAlarm): string {
    if alarm.State? then alarm.state else ""
  }

  function Upper(s: string): string {
    seq(|s|, i requires 0 <= i < |s| => if 'a' <= s[i] <= 'z' then s[i] - 'a' + 'A' else s[i])
  }

  /** The two states that count, in whatever case. */
  lemma UpperIs(s: string)
    ensures Upper(s) == "OK" <==> |s| == 2 && s[0] in "Oo" && s[1] in "Kk"
    ensures Upper(s) == "ALARM" <==>
            |s| == 5 && s[0] in "Aa" && s[1] in "Ll" && s[2] in "Aa" && s[3] in "Rr" && s[4] in "Mm"
  {
    if |s| == 2 {
      assert Upper(s) == [Upper(s)[0], Upper(s)[1]];
    } else if |s| == 5 {
      assert Upper(s) == [Upper(s)[0], Upper(s)[1], Upper(s)[2], Upper(s)[3], Upper(s)[4]];
    }
  }

  predicate IsOk(alarm: KeptAlarm) {
    alarm.State? && |alarm.state| == 2 && alarm.state[0] in "Oo" && alarm.state[1] in "Kk"
  }

  predicate IsActive(alarm: KeptAlarm) {
    && alarm.State? && |alarm.state| == 5
    && alarm.state[0] in "Aa" && alarm.state[1] in "Ll" && alarm.state[2] in "Aa" && alarm.state[3] in "Rr"
    && alarm.state[4] in "Mm"
  }

  function CountActive(states: seq<KeptAlarm>): nat {
    if states == [] then 0
    else CountActive(states[..|states| - 1]) + if Upper(StateText(states[|states| - 1])) == "ALARM" then 1 else 0
  }

  function CountOk(states: seq<KeptAlarm>): nat {
    if states == [] then 0
    else CountOk(states[..|states| - 1]) + if Upper(StateText(states[|states| - 1])) == "OK" then 1 else 0
  }

  /** Every alarm looked at is active, fine or indeterminate. */
  predicate Evaluates(collected: Collected, e: AlarmEvaluation) {
    match collected
    case Alarms(all, flagged) =>
      var states := Considered(all);
      && e.available && e.alarms == |states|
      && e.active == CountActive(states)
      && e.indeterminate == |states| - CountActive(states) - CountOk(states)
      && (e.truncated <==> flagged || |all| > MAX_ALARMS)
    case _ => e == AlarmEvaluation(false, 0, 0, 0, false)
  }

  lemma CountedAlarm(alarm: KeptAlarm)
    ensures Upper(StateText(alarm)) == "OK" <==> IsOk(alarm)
    ensures Upper(StateText(alarm)) == "ALARM" <==> IsActive(alarm)
  {
    UpperIs(StateText(alarm));
    hide Upper;
  }

  /** Where the alarms of a kind are. */
  function Where(states: seq<KeptAlarm>, kind: KeptAlarm -> bool): set<nat> {
    set i: nat | i < |states| && kind(states[i])
  }

  lemma WhereSnoc(front: seq<KeptAlarm>, last: KeptAlarm, kind: KeptAlarm -> bool)
    ensures |Where(front + [last], kind)| == |Where(front, kind)| + if kind(last) then 1 else 0
  {
    var n, states := |front|, front + [last];
    assert states[n] == last && forall i | 0 <= i < n :: states[i] == front[i];
    assert Where(states, kind) == if kind(last) then Where(front, kind) + {n} else Where(front, kind);
  }

  /** How many alarms are active and how many are fine, by their own texts. */
  lemma {:induction false} CountsAre(states: seq<KeptAlarm>)
    ensures CountActive(states) == |Where(states, IsActive)|
    ensures CountOk(states) == |Where(states, IsOk)|
  {
    hide Upper, IsActive, IsOk, StateText;
    if states == [] {
      assert Where(states, IsActive) == {} && Where(states, IsOk) == {};
    } else {
      var front, last := states[..|states| - 1], states[|states| - 1];
      CountsAre(front);
      CountedAlarm(last);
      WhereSnoc(front, last, IsActive);
      WhereSnoc(front, last, IsOk);
      hide Where;
      assert states == front + [last];
    }
  }

  method EvaluateAlarms(collected: Collected) returns (e: AlarmEvaluation)
    requires !collected.Failed?
    ensures Evaluates(collected, e)
  {
    if collected.NoAlarmList? {
      return AlarmEvaluation(false, 0, 0, 0, false);
    }
    var alarms, active, indeterminate := 0, 0, 0;
    var states := Considered(collected.states);
    for i := 0 to |states|
      invariant alarms == i && active == CountActive(states[..i])
      invariant indeterminate == i - CountActive(states[..i]) - CountOk(states[..i])
    {
      assert states[..i + 1][..|states[..i + 1]| - 1] == states[..i];
      alarms := alarms + 1;
      var state := Upper(StateText(states[i]));
      if state == "ALARM" {
        active := active + 1;
      } else if state != "OK" {
        indeterminate := indeterminate + 1;
      }
    }
    assert states[..|states|] == states;
    e := AlarmEvaluation(true, alarms, active, indeterminate, |collected.states| > MAX_ALARMS || collected.flagged);
  }

  lemma {:induction false} NoneActiveAllOk(states: seq<KeptAlarm>)
    ensures CountActive(states) + CountOk(states) <= |states|
    ensures CountActive(states) == 0 && CountOk(states) == |states|
            <==> forall i | 0 <= i < |states| :: Upper(StateText(states[i])) == "OK"
  {
    if states == [] {
    } else {
      NoneActiveAllOk(states[..|states| - 1]);
    }
  }

  function AllAlarms(pages: seq<Page>): seq<RawAlarm> {
    if pages == [] then [] else AllAlarms(pages[..|pages| - 1]) + pages[|pages| - 1].alarms
  }

  lemma {:induction false} StatesOfConcatenation(pages: seq<Page>)
    ensures AllStates(pages) == KeepAll(AllAlarms(pages))
  {
    if pages == [] {
    } else {
      StatesOfConcatenation(pages[..|pages| - 1]);
    }
  }

  lemma CompletePaged(server: Server, pages: seq<Page>, complete: seq<Page>, collected: Collected)
    requires Complete(server, complete) && Paged(server, pages, collected)
    ensures collected == Alarms(KeepAll(AllAlarms(complete)), false)
  {
    CompleteChainIsFollowed(server, pages, complete);
    StatesOfConcatenation(pages);
  }

  /** How the same alarms are split into pages does not matter: whatever the servers are, paging over
      a complete chain collects the same list, and the counts are the same. */
  lemma PageSplitIrrelevant(one: Server, a: seq<Page>, pages: seq<Page>, x: Collected,
                            other: Server, b: seq<Page>, pages': seq<Page>, y: Collected)
    requires Complete(one, a) && Paged(one, pages, x)
    requires Complete(other, b) && Paged(other, pages', y)
    requires AllAlarms(a) == AllAlarms(b)
    ensures x == y
    ensures forall e, e' :: Evaluates(x, e) && Evaluates(y, e') ==> e == e'
  {
    hide Complete, Paged, Considered;
    CompletePaged(one, pages, a, x);
    CompletePaged(other, pages', b, y);
  }
}
