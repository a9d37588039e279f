/** Which agent answers an incoming message (agent-routing.service.ts): a cascade of selectors over the candidates,
    and a numbered menu when none of them settles it. Semantic routing is off. */
module AgentRouting {
  import opened Wrappers
  import opened Lists
  import opened Numerals
  import opened Sorting
  import opened RoutingCandidates
  import opened RecentHistory

  datatype Reason = MissingIdentifier | NoCandidates

  datatype Decision =
    | Resolved(candidate: Candidate)
    | Ambiguous(candidates: seq<Candidate>, prompt: seq<string>)
    | Unroutable(reason: Reason)

  datatype Context = Context(address: string, sender: string, text: string, kind: ChannelType)

  // ----- An answer by number or by name -----

  function ByName(lib: Library): (Candidate, Candidate) -> bool {
    (a: Candidate, b: Candidate) => lib.collates(a.agentName, b.agentName)
  }

  function SortedByName(lib: Library, cands: seq<Candidate>): seq<Candidate> {
    Sort(ByName(lib), cands)
  }

  function Folded(lib: Library, text: string): string {
    lib.lower(Trim(lib, text))
  }

  predicate Includes(text: string, part: string) {
    exists k :: 0 <= k <= |text| && part <= text[k..]
  }

  function TheOnly<A>(s: seq<A>): Option<A> {
    if |s| == 1 then Some(s[0]) else None
  }

  function ByNumber(sorted: seq<Candidate>, text: string): Option<Candidate> {
    if !AllDigits(text) then None
    else
      DigitsAreANumber(text);
      var n := NumberOf(text, 10).value;
      if 1 <= n <= |sorted| then Some(sorted[n - 1]) else None
  }

  function Named(lib: Library, text: string): Candidate -> bool {
    (c: Candidate) => Folded(lib, c.agentName) == text
  }

  function Mentioned(lib: Library, text: string): Candidate -> bool {
    (c: Candidate) => Includes(text, Folded(lib, c.agentName))
  }

  function ExplicitSelection(lib: Library, cands: seq<Candidate>, incoming: string): Option<Candidate> {
    var text := Folded(lib, incoming);
    var sorted := SortedByName(lib, cands);
    var numbered := ByNumber(sorted, text);
    var exact := TheOnly(Select(Named(lib, text), sorted));
    if numbered.Some? then numbered
    else if exact.Some? then exact
    else TheOnly(Select(Mentioned(lib, text), sorted))
  }

  // ----- Keywords -----

  predicate IsWordChar(c: char) {
    'a' <= c <= 'z' || 'A' <= c <= 'Z' || '0' <= c <= '9' || c == '_'
  }

  /** The runs of word characters; `word` is the one being read. */
  function Words(text: string, word: string): seq<string> {
    if text == "" then [word]
    else if IsWordChar(text[0]) then Words(text[1..], word + [text[0]])
    else [word] + Words(text[1..], "")
  }

  function Score(lib: Library, c: Candidate, text: string): nat {
    |Select((word: string) => |word| >= 4 && Includes(text, word), Words(lib.lower(c.agentName), ""))|
  }

  function MaxScore(lib: Library, cands: seq<Candidate>, text: string): nat {
    if cands == [] then 0
    else
      var rest, score := MaxScore(lib, cands[1..], text), Score(lib, cands[0], text);
      if score > rest then score else rest
  }

  function KeywordSelection(lib: Library, cands: seq<Candidate>, incoming: string): Option<Candidate> {
    var text := lib.lower(incoming);
    var max := MaxScore(lib, cands, text);
    if max == 0 then None
    else TheOnly(Select((c: Candidate) => Score(lib, c, text) == max, cands))
  }

  // ----- The menu -----

  /** Numbered from 1; `mark` is the punctuation behind the number. */
  function MenuLines(cands: seq<Candidate>, mark: string): (lines: seq<string>)
    ensures |lines| == |cands| && forall i :: 0 <= i < |cands| ==> lines[i] == Decimal(i + 1) + mark + cands[i].agentName
  {
    seq(|cands|, i requires 0 <= i < |cands| => Decimal(i + 1) + mark + cands[i].agentName)
  }

  // ----- The cascade -----

  function OrElse<A>(a: Option<A>, b: Option<A>): Option<A> {
    if a.Some? then a else b
  }

  function Choose(lib: Library, db: Database, cands: seq<Candidate>, ctx: Context): Decision {
    if cands == [] then Unroutable(NoCandidates)
    else if |cands| == 1 then Resolved(cands[0])
    else
      var chosen := OrElse(ExplicitSelection(lib, cands, ctx.text),
                           OrElse(MostRecent(lib, db, ctx.sender, cands), KeywordSelection(lib, cands, ctx.text)));
      if chosen.Some? then Resolved(chosen.value)
      else Ambiguous(SortedByName(lib, cands), MenuLines(SortedByName(lib, cands), ") "))
  }

  function ResolveRoute(lib: Library, agents: map<Id, Agent>, db: Database, hires: seq<Hire>, ctx: Context): Decision {
    if ctx.address == "" then Unroutable(MissingIdentifier)
    else Choose(lib, db, Candidates(lib, agents, hires, ctx.kind, ctx.address), ctx)
  }

  // ----- The order in which the database returns the hires does not matter -----

  ghost predicate DistinctNames(cands: seq<Candidate>) {
    forall c, d :: c in cands && d in cands && c.agentName == d.agentName ==> c == d
  }

  lemma ByNameOrders(lib: Library, cands: seq<Candidate>)
    requires IsLibrary(lib) && NoDuplicates(cands) && DistinctNames(cands)
    ensures IsStrictOrder(ByName(lib)) && IsTotalOn(ByName(lib), cands)
  {
    var before, collates := ByName(lib), lib.collates;
    forall a, b ensures before(a, b) == collates(a.agentName, b.agentName) {
    }
    forall a, b | before(a, b) ensures !before(b, a) {
      assert collates(a.agentName, b.agentName);
    }
    forall a, b, c | before(a, b) && before(b, c) ensures before(a, c) {
      assert collates(a.agentName, b.agentName) && collates(b.agentName, c.agentName);
    }
    forall i, j | 0 <= i < j < |cands| ensures ByName(lib)(cands[i], cands[j]) || ByName(lib)(cands[j], cands[i]) {
      assert cands[i] in cands && cands[j] in cands;
      assert cands[i].agentName != cands[j].agentName;
    }
  }

  lemma SortedForgetsOrder(lib: Library, a: seq<Candidate>, b: seq<Candidate>)
    requires IsLibrary(lib) && SameElements(a, b) && NoDuplicates(a) && NoDuplicates(b) && DistinctNames(a)
    ensures SortedByName(lib, a) == SortedByName(lib, b) && |a| == |b|
  {
    assert DistinctNames(b);
    ByNameOrders(lib, a);
    ByNameOrders(lib, b);
    SortForgetsOrder(ByName(lib), a, b);
    SortKeepsElements(ByName(lib), a);
    SortKeepsElements(ByName(lib), b);
  }

  /** What a unique winner is, whatever list it comes from. */
  lemma TheOnlyIs<A(!new)>(keep: A -> bool, s: seq<A>, x: A)
    requires NoDuplicates(s)
    ensures TheOnly(Select(keep, s)) == Some(x) <==> x in s && keep(x) && forall y :: y in s && keep(y) ==> y == x
  {
    var kept := Select(keep, s);
    SelectElements(keep, s);
    SelectKeepsDistinct(keep, s);
    assert kept != [] ==> kept[0] in kept;
    assert |kept| > 1 ==> kept[1] in kept;
    if x in s && keep(x) {
      assert x in kept;
    }
  }

  lemma TheOnlyForgetsOrder<A(!new)>(keep: A -> bool, a: seq<A>, b: seq<A>)
    requires SameElements(a, b) && NoDuplicates(a) && NoDuplicates(b)
    ensures TheOnly(Select(keep, a)) == TheOnly(Select(keep, b))
  {
    var (x, y) := (TheOnly(Select(keep, a)), TheOnly(Select(keep, b)));
    if x.Some? {
      TheOnlyIs(keep, a, x.value);
      TheOnlyIs(keep, b, x.value);
    } else if y.Some? {
      TheOnlyIs(keep, b, y.value);
      TheOnlyIs(keep, a, y.value);
    }
  }

  lemma {:induction false} MaxScoreIs(lib: Library, cands: seq<Candidate>, text: string)
    ensures var max := MaxScore(lib, cands, text);
      (forall c :: c in cands ==> Score(lib, c, text) <= max)
      && (max > 0 ==> exists c :: c in cands && Score(lib, c, text) == max)
  {
    if cands != [] {
      assert cands == [cands[0]] + cands[1..];
      MaxScoreIs(lib, cands[1..], text);
    }
  }

  ghost predicate IsClearWinner(lib: Library, cands: seq<Candidate>, text: string, x: Candidate) {
    && x in cands && Score(lib, x, text) > 0
    && forall c :: c in cands && c != x ==> Score(lib, c, text) < Score(lib, x, text)
  }

  /** A keyword decides for a candidate exactly when that candidate alone scores highest, and scores at all. */
  lemma KeywordWinsIff(lib: Library, cands: seq<Candidate>, incoming: string, x: Candidate)
    requires NoDuplicates(cands)
    ensures KeywordSelection(lib, cands, incoming) == Some(x)
      <==> IsClearWinner(lib, cands, lib.lower(incoming), x)
  {
    var text := lib.lower(incoming);
    var max := MaxScore(lib, cands, text);
    MaxScoreIs(lib, cands, text);
    TheOnlyIs((c: Candidate) => Score(lib, c, text) == max, cands, x);
  }

  lemma MaxScoreForgetsOrder(lib: Library, a: seq<Candidate>, b: seq<Candidate>, text: string)
    requires SameElements(a, b)
    ensures MaxScore(lib, a, text) == MaxScore(lib, b, text)
  {
    MaxScoreIs(lib, a, text);
    MaxScoreIs(lib, b, text);
  }

  lemma KeywordForgetsOrder(lib: Library, a: seq<Candidate>, b: seq<Candidate>, incoming: string)
    requires SameElements(a, b) && NoDuplicates(a) && NoDuplicates(b)
    ensures KeywordSelection(lib, a, incoming) == KeywordSelection(lib, b, incoming)
  {
    var text := lib.lower(incoming);
    MaxScoreForgetsOrder(lib, a, b, text);
    var max := MaxScore(lib, a, text);
    TheOnlyForgetsOrder((c: Candidate) => Score(lib, c, text) == max, a, b);
  }

  lemma ChooseForgetsOrder(lib: Library, db: Database, a: seq<Candidate>, b: seq<Candidate>, ctx: Context)
    requires IsLibrary(lib) && IsDatabase(db) && SameElements(a, b) && NoDuplicates(a) && NoDuplicates(b)
    requires DistinctNames(a) && OneHirePerPair(a)
    ensures Choose(lib, db, a, ctx) == Choose(lib, db, b, ctx)
  {
    hide SortedByName, MostRecent, KeywordSelection;
    SortedForgetsOrder(lib, a, b);
    MostRecentForgetsOrder(lib, db, ctx.sender, a, b);
    KeywordForgetsOrder(lib, a, b, ctx.text);
    if |a| == 1 {
      assert a[0] in b;
    }
  }

  /** With agents of distinct names, one hire per client and agent and one message per instant, the whole decision is
      the same for every order in which the database returns the hires. */
  lemma RouteForgetsOrder(lib: Library, agents: map<Id, Agent>, db: Database, a: seq<Hire>, b: seq<Hire>, ctx: Context)
    requires IsLibrary(lib) && IsDatabase(db)
    requires SameElements(a, b) && NoDuplicates(a) && NoDuplicates(b)
    requires forall g, h :: g in a && h in a && g.client == h.client && g.agent == h.agent ==> g == h
    requires DistinctNames(Candidates(lib, agents, a, ctx.kind, ctx.address))
    ensures ResolveRoute(lib, agents, db, a, ctx) == ResolveRoute(lib, agents, db, b, ctx)
  {
    CandidatesSame(lib, agents, a, b, ctx.kind, ctx.address);
    ChooseForgetsOrder(lib, db, Candidates(lib, agents, a, ctx.kind, ctx.address), Candidates(lib, agents, b, ctx.kind, ctx.address), ctx);
  }

  // ----- What names decide -----

  /** A stretch of word characters that cannot be extended at either end. */
  predicate IsRun(s: string, i: nat, j: nat) {
    && i <= j <= |s|
    && (forall k :: i <= k < j ==> IsWordChar(s[k]))
    && (i == 0 || !IsWordChar(s[i - 1]))
    && (j == |s| || !IsWordChar(s[j]))
  }

  ghost predicate IsRunFrom(s: string, from: nat, word: string) {
    exists i: nat, j: nat :: from <= i && IsRun(s, i, j) && s[i..j] == word
  }

  /** Reading from position p with a run under way since position i. */
  lemma {:induction false} WordsFrom(s: string, i: nat, p: nat, word: string)
    requires i <= p <= |s| && (i == 0 || !IsWordChar(s[i - 1])) && forall k :: i <= k < p ==> IsWordChar(s[k])
    ensures word in Words(s[p..], s[i..p]) <==> IsRunFrom(s, i, word)
    decreases |s| - p
  {
    if p == |s| {
      if IsRunFrom(s, i, word) {
        var x: nat, y: nat :| i <= x && IsRun(s, x, y) && s[x..y] == word;
        assert x == i && y == p;
      }
      assert IsRun(s, i, p);
    } else if IsWordChar(s[p]) {
      assert s[p..][1..] == s[p + 1..] && s[i..p] + [s[p]] == s[i..p + 1];
      WordsFrom(s, i, p + 1, word);
    } else {
      assert s[p..][1..] == s[p + 1..] && s[p + 1..p + 1] == "";
      WordsFrom(s, p + 1, p + 1, word);
      assert IsRun(s, i, p);
      RunsSplit(s, i, p, word);
    }
  }

  /** Past a run that ends at p, all runs start behind p. */
  lemma RunsSplit(s: string, i: nat, p: nat, word: string)
    requires i <= p < |s| && IsRun(s, i, p)
    ensures IsRunFrom(s, i, word) <==> s[i..p] == word || IsRunFrom(s, p + 1, word)
  {
    if IsRunFrom(s, i, word) {
      var x: nat, y: nat :| i <= x && IsRun(s, x, y) && s[x..y] == word;
      assert x == i || x > p;
      assert x == i ==> y == p;
    }
  }

  /** A candidate scores exactly if a whole word of its name, of four letters or more, appears in the message. */
  lemma ScoresIff(lib: Library, c: Candidate, text: string)
    ensures Score(lib, c, text) > 0
      <==> exists word :: |word| >= 4 && Includes(text, word) && IsRunFrom(lib.lower(c.agentName), 0, word)
  {
    var name := lib.lower(c.agentName);
    var keep := (word: string) => |word| >= 4 && Includes(text, word);
    var found := Select(keep, Words(name, ""));
    SelectElements(keep, Words(name, ""));
    assert name[0..] == name && name[0..0] == "";
    forall word ensures word in Words(name, "") <==> IsRunFrom(name, 0, word) {
      WordsFrom(name, 0, 0, word);
    }
    assert found != [] ==> found[0] in found;
  }

  /** The one candidate of the list with the property. */
  ghost predicate IsTheOne(cands: seq<Candidate>, keep: Candidate -> bool, x: Candidate) {
    x in cands && keep(x) && forall c :: c in cands && keep(c) ==> c == x
  }

  lemma SortedIsDistinct(lib: Library, cands: seq<Candidate>)
    requires NoDuplicates(cands)
    ensures NoDuplicates(SortedByName(lib, cands)) && SameElements(SortedByName(lib, cands), cands)
  {
    SortKeepsDistinct(ByName(lib), cands);
    SortKeepsElements(ByName(lib), cands);
  }

  /** A message that is no valid number selects by name: the only candidate of exactly that name, or else the only one
      whose name it contains. Two agents of one name are two candidates, so neither is selected by it. */
  lemma NameSelectsIff(lib: Library, cands: seq<Candidate>, incoming: string, x: Candidate)
    requires NoDuplicates(cands)
    requires ByNumber(SortedByName(lib, cands), Folded(lib, incoming)).None?
    ensures var text := Folded(lib, incoming);
      ExplicitSelection(lib, cands, incoming) == Some(x) <==>
        IsTheOne(cands, Named(lib, text), x) || (IsTheOne(cands, Mentioned(lib, text), x) && forall y :: !IsTheOne(cands, Named(lib, text), y))
  {
    hide SortedByName, Folded, ByNumber;
    var text, sorted := Folded(lib, incoming), SortedByName(lib, cands);
    SortedIsDistinct(lib, cands);
    forall y ensures TheOnly(Select(Named(lib, text), sorted)) == Some(y) <==> IsTheOne(cands, Named(lib, text), y) {
      TheOnlyIs(Named(lib, text), sorted, y);
    }
    TheOnlyIs(Mentioned(lib, text), sorted, x);
    var exact := TheOnly(Select(Named(lib, text), sorted));
    assert exact.Some? ==> IsTheOne(cands, Named(lib, text), exact.value);
  }

  // ----- The menu is understood -----

  function LeadingDigits(line: string): string {
    if line != "" && '0' <= line[0] <= '9' then [line[0]] + LeadingDigits(line[1..]) else ""
  }

  lemma {:induction false} NumberReadsOff(number: string, rest: string)
    requires forall k :: 0 <= k < |number| ==> '0' <= number[k] <= '9'
    requires rest != "" && !('0' <= rest[0] <= '9')
    ensures LeadingDigits(number + rest) == number
  {
    if number == "" {
      assert number + rest == rest;
    } else {
      NumberReadsOff(number[1..], rest);
      assert (number + rest)[1..] == number[1..] + rest;
    }
  }

  /** Whatever list the menu shows, answering with the number printed in front of an entry, with or without white
      space around it, selects exactly that entry. */
  lemma PrintedNumberSelects(lib: Library, cands: seq<Candidate>, mark: string, i: nat, reply: string)
    requires KeepsDigits(lib) && i < |SortedByName(lib, cands)| && mark != "" && !('0' <= mark[0] <= '9')
    requires Trim(lib, reply) == LeadingDigits(MenuLines(SortedByName(lib, cands), mark)[i])
    ensures ExplicitSelection(lib, cands, reply) == Some(SortedByName(lib, cands)[i])
  {
    hide Decimal, Sort, Select, Named, Mentioned, NumberOf;
    SortKeepsElements(ByName(lib), cands);
    var sorted := SortedByName(lib, cands);
    DecimalRoundTrip(i + 1);
    NumberReadsOff(Decimal(i + 1), mark + sorted[i].agentName);
    assert MenuLines(sorted, mark)[i] == Decimal(i + 1) + (mark + sorted[i].agentName);
  }

  /** A sender who is shown the menu and replies with a printed number is routed to the entry behind it, whichever of
      the two menus was sent: the router's own or the one with the client's name in it. */
  lemma MenuRoundTrip(lib: Library, agents: map<Id, Agent>, db: Database, hires: seq<Hire>, ctx: Context, mark: string, i: nat, reply: string)
    requires KeepsDigits(lib) && mark in {") ", ". "}
    requires ResolveRoute(lib, agents, db, hires, ctx).Ambiguous?
    requires var menu := ResolveRoute(lib, agents, db, hires, ctx).candidates;
      i < |menu| && Trim(lib, reply) == LeadingDigits(MenuLines(menu, mark)[i])
    ensures ResolveRoute(lib, agents, db, hires, ctx.(text := reply))
      == Resolved(ResolveRoute(lib, agents, db, hires, ctx).candidates[i])
  {
    var cands := Candidates(lib, agents, hires, ctx.kind, ctx.address);
    SortKeepsElements(ByName(lib), cands);
    PrintedNumberSelects(lib, cands, mark, i, reply);
  }

  /** The menu lists every candidate, and has no more entries than there are candidates. */
  lemma MenuIsComplete(lib: Library, agents: map<Id, Agent>, db: Database, hires: seq<Hire>, ctx: Context)
    requires ResolveRoute(lib, agents, db, hires, ctx).Ambiguous?
    ensures var menu, cands := ResolveRoute(lib, agents, db, hires, ctx).candidates, Candidates(lib, agents, hires, ctx.kind, ctx.address);
      SameElements(menu, cands) && |menu| == |cands| >= 2
  {
    SortKeepsElements(ByName(lib), Candidates(lib, agents, hires, ctx.kind, ctx.address));
  }

  // ----- What decides, on the message, the names and the stored records alone -----

  /** The part appears somewhere in the text. */
  lemma IncludesIff(text: string, part: string)
    ensures Includes(text, part) <==> exists front, back :: text == front + part + back
  {
    if Includes(text, part) {
      var k :| 0 <= k <= |text| && part <= text[k..];
      assert text == text[..k] + part + text[k + |part|..];
    }
    if front, back :| text == front + part + back {
      assert text[|front|..] == part + back;
    }
  }

  function Called(name: string): Candidate -> bool {
    (c: Candidate) => c.agentName == name
  }

  /** The menu's order: by name, and agents of one name as the database returned them. */
  lemma SortedByNameIs(lib: Library, cands: seq<Candidate>)
    requires IsLibrary(lib)
    ensures var sorted := SortedByName(lib, cands);
      && |sorted| == |cands| && SameElements(sorted, cands)
      && (forall i, j :: 0 <= i < j < |sorted| ==> !lib.collates(sorted[j].agentName, sorted[i].agentName))
      && forall name :: Select(Called(name), sorted) == Select(Called(name), cands)
  {
    var before, sorted := ByName(lib), SortedByName(lib, cands);
    SortKeepsElements(before, cands);
    ByNameIsWeak(lib);
    SortAscends(before, cands);
    forall i, j | 0 <= i < j < |sorted| ensures !lib.collates(sorted[j].agentName, sorted[i].agentName) {
      assert !before(sorted[j], sorted[i]);
    }
    forall name ensures Select(Called(name), sorted) == Select(Called(name), cands) {
      SortIsStable(before, cands, Called(name));
    }
  }

  lemma ByNameIsWeak(lib: Library)
    requires IsLibrary(lib)
    ensures IsWeakOrder(ByName(lib))
  {
    var before, collates := ByName(lib), lib.collates;
    forall a, b ensures before(a, b) == collates(a.agentName, b.agentName) {
    }
    forall a, b | before(a, b) ensures !before(b, a) {
      assert collates(a.agentName, b.agentName);
    }
    forall a, b, c | before(a, b) && before(b, c) ensures before(a, c) {
      assert collates(a.agentName, b.agentName) && collates(b.agentName, c.agentName);
    }
    forall a, b, c | !before(a, b) && !before(b, c) ensures !before(a, c) {
      assert a.agentName == b.agentName || collates(b.agentName, a.agentName);
      assert b.agentName == c.agentName || collates(c.agentName, b.agentName);
    }
  }

  /** The message is the number printed before x in the menu, zeros in front of it or not. */
  ghost predicate IsNumberOf(lib: Library, cands: seq<Candidate>, text: string, x: Candidate) {
    exists i, zeros :: 0 <= i < |cands| && text == Zeros(zeros) + Decimal(i + 1) && x == SortedAt(lib, cands, i)
  }

  function SortedAt(lib: Library, cands: seq<Candidate>, i: int): Candidate
    requires 0 <= i < |cands|
  {
    SortKeepsElements(ByName(lib), cands);
    SortedByName(lib, cands)[i]
  }

  lemma ByNumberIff(lib: Library, cands: seq<Candidate>, text: string, x: Candidate)
    ensures ByNumber(SortedByName(lib, cands), text) == Some(x) <==> IsNumberOf(lib, cands, text, x)
  {
    hide SortedByName, Decimal, NumberOf, Zeros;
    SortedLength(lib, cands);
    if ByNumber(SortedByName(lib, cands), text) == Some(x) {
      var zeros := DigitsReadAs(text);
      var n := NumberOf(text, 10).value;
      assert text == Zeros(zeros) + Decimal(n - 1 + 1) && x == SortedAt(lib, cands, n - 1);
    }
    if i, zeros :| 0 <= i < |cands| && text == Zeros(zeros) + Decimal(i + 1) && x == SortedAt(lib, cands, i) {
      DecimalRoundTrip(i + 1);
      ZerosInFront(zeros, Decimal(i + 1));
      ZerosAreDigits(zeros);
    }
  }

  lemma SortedLength(lib: Library, cands: seq<Candidate>)
    ensures |SortedByName(lib, cands)| == |cands|
  {
    SortKeepsElements(ByName(lib), cands);
  }

  /** Names and messages are compared without white space around them and in lower case. */
  predicate HasName(lib: Library, c: Candidate, incoming: string) {
    lib.lower(Trim(lib, c.agentName)) == lib.lower(Trim(lib, incoming))
  }

  ghost predicate NameAppears(lib: Library, c: Candidate, incoming: string) {
    exists front, back :: lib.lower(Trim(lib, incoming)) == front + lib.lower(Trim(lib, c.agentName)) + back
  }

  ghost predicate IsOnlyNamed(lib: Library, cands: seq<Candidate>, incoming: string, x: Candidate) {
    x in cands && HasName(lib, x, incoming) && forall c :: c in cands && c != x ==> !HasName(lib, c, incoming)
  }

  ghost predicate IsOnlyMentioned(lib: Library, cands: seq<Candidate>, incoming: string, x: Candidate) {
    x in cands && NameAppears(lib, x, incoming) && forall c :: c in cands && c != x ==> !NameAppears(lib, c, incoming)
  }

  /** What the text of a message chooses: first by number, then the one candidate of that name, then the one candidate
      whose name appears in it. */
  ghost predicate IsChosen(lib: Library, cands: seq<Candidate>, incoming: string, x: Candidate) {
    || IsNumberOf(lib, cands, lib.lower(Trim(lib, incoming)), x)
    || ((forall y :: !IsNumberOf(lib, cands, lib.lower(Trim(lib, incoming)), y))
        && (IsOnlyNamed(lib, cands, incoming, x)
            || (IsOnlyMentioned(lib, cands, incoming, x) && forall y :: !IsOnlyNamed(lib, cands, incoming, y))))
  }

  lemma NamedIff(lib: Library, cands: seq<Candidate>, incoming: string, x: Candidate)
    ensures IsTheOne(cands, Named(lib, Folded(lib, incoming)), x) <==> IsOnlyNamed(lib, cands, incoming, x)
    ensures IsTheOne(cands, Mentioned(lib, Folded(lib, incoming)), x) <==> IsOnlyMentioned(lib, cands, incoming, x)
  {
    var named, mentioned := Named(lib, Folded(lib, incoming)), Mentioned(lib, Folded(lib, incoming));
    forall c ensures (named(c) <==> HasName(lib, c, incoming)) && (mentioned(c) <==> NameAppears(lib, c, incoming)) {
      IncludesIff(Folded(lib, incoming), Folded(lib, c.agentName));
    }
  }

  /** The explicit selection is what the text chooses. */
  lemma ExplicitIff(lib: Library, cands: seq<Candidate>, incoming: string, x: Candidate)
    requires NoDuplicates(cands)
    ensures ExplicitSelection(lib, cands, incoming) == Some(x) <==> IsChosen(lib, cands, incoming, x)
  {
    hide SortedByName, ByNumber, IsNumberOf, IsOnlyNamed, IsOnlyMentioned, IsTheOne;
    var text := Folded(lib, incoming);
    forall y ensures ByNumber(SortedByName(lib, cands), text) == Some(y) <==> IsNumberOf(lib, cands, text, y) {
      ByNumberIff(lib, cands, text, y);
    }
    forall y ensures IsTheOne(cands, Named(lib, text), y) <==> IsOnlyNamed(lib, cands, incoming, y) {
      NamedIff(lib, cands, incoming, y);
    }
    var numbered := ByNumber(SortedByName(lib, cands), text);
    if numbered.None? {
      NamedIff(lib, cands, incoming, x);
      NameSelectsIff(lib, cands, incoming, x);
    } else {
      assert IsNumberOf(lib, cands, text, numbered.value);
    }
  }

  // ----- How a score is counted -----

  /** The places in the name of its words of four characters or more that the message contains. */
  function Places(s: string, from: nat, text: string): set<(nat, nat)> {
    set i: nat, j: nat | from <= i <= |s| && i <= j <= |s| && IsRun(s, i, j) && j - i >= 4 && Includes(text, s[i..j]) :: (i, j)
  }

  function Scoring(text: string): string -> bool {
    (word: string) => |word| >= 4 && Includes(text, word)
  }

  lemma {:induction false} ScoringFrom(s: string, i: nat, p: nat, text: string)
    requires i <= p <= |s| && (i == 0 || !IsWordChar(s[i - 1])) && forall k :: i <= k < p ==> IsWordChar(s[k])
    ensures |Select(Scoring(text), Words(s[p..], s[i..p]))| == |Places(s, i, text)|
    decreases |s| - p
  {
    hide Includes, IsWordChar, Places, IsRun, Words, Scoring;
    WordsGoOn(s, i, p);
    if p < |s| && IsWordChar(s[p]) {
      ScoringFrom(s, i, p + 1, text);
    } else if p == |s| {
      SelectFromFront(Scoring(text), s[i..p], []);
      LastPlace(s, i, text);
    } else {
      SelectFromFront(Scoring(text), s[i..p], Words(s[p + 1..], s[p + 1..p + 1]));
      ScoringFrom(s, p + 1, p + 1, text);
      PlacesSplit(s, i, p, text);
    }
  }

  lemma WordsGoOn(s: string, i: nat, p: nat)
    requires i <= p <= |s|
    ensures Words(s[p..], s[i..p]) ==
      if p == |s| then [s[i..p]] + []
      else if IsWordChar(s[p]) then Words(s[p + 1..], s[i..p + 1])
      else [s[i..p]] + Words(s[p + 1..], s[p + 1..p + 1])
  {
    if p < |s| {
      assert s[p..][1..] == s[p + 1..] && s[p + 1..p + 1] == "";
      assert s[i..p] + [s[p]] == s[i..p + 1];
    }
  }

  lemma LastPlace(s: string, i: nat, text: string)
    requires i <= |s| && (i == 0 || !IsWordChar(s[i - 1])) && forall k :: i <= k < |s| ==> IsWordChar(s[k])
    ensures Places(s, i, text) == if Scoring(text)(s[i..|s|]) then {(i, |s|)} else {}
  {
  }

  lemma PlacesSplit(s: string, i: nat, p: nat, text: string)
    requires i <= p < |s| && (i == 0 || !IsWordChar(s[i - 1])) && !IsWordChar(s[p]) && forall k :: i <= k < p ==> IsWordChar(s[k])
    ensures (i, p) !in Places(s, p + 1, text)
    ensures Places(s, i, text) == (if Scoring(text)(s[i..p]) then {(i, p)} else {}) + Places(s, p + 1, text)
  {
    hide Includes;
    assert IsRun(s, i, p);
    forall x, y | (x, y) in Places(s, i, text) ensures (x, y) == (i, p) || (x, y) in Places(s, p + 1, text) {
      assert x == i || x > p;
    }
  }

  /** The score is the number of places in the name that hold a word of four characters or more of the message. */
  lemma ScoreCounts(lib: Library, c: Candidate, text: string)
    ensures Score(lib, c, text) == |Places(lib.lower(c.agentName), 0, text)|
  {
    var name := lib.lower(c.agentName);
    assert name[0..] == name && name[0..0] == "";
    ScoringFrom(name, 0, 0, text);
    assert Scoring(text) == ((word: string) => |word| >= 4 && Includes(text, word));
  }

  // ----- The decision -----

  /** What a message decides among two or more candidates: the text first, then who spoke last with the sender, then the
      keywords. */
  ghost predicate Decides(lib: Library, db: Database, cands: seq<Candidate>, ctx: Context, x: Candidate) {
    || IsChosen(lib, cands, ctx.text, x)
    || ((forall y :: !IsChosen(lib, cands, ctx.text, y))
        && (SpokeLast(lib, db, ctx.sender, cands, x)
            || ((forall y :: !SpokeLast(lib, db, ctx.sender, cands, y)) && IsClearWinner(lib, cands, lib.lower(ctx.text), x))))
  }

  lemma ChooseIff(lib: Library, db: Database, cands: seq<Candidate>, ctx: Context, x: Candidate)
    requires IsDatabase(db) && NoDuplicates(cands) && OneHirePerPair(cands) && |cands| >= 2
    ensures Choose(lib, db, cands, ctx) == Resolved(x) <==> Decides(lib, db, cands, ctx, x)
  {
    hide ExplicitSelection, MostRecent, KeywordSelection, IsChosen, SpokeLast, IsClearWinner, SortedByName;
    forall y ensures ExplicitSelection(lib, cands, ctx.text) == Some(y) <==> IsChosen(lib, cands, ctx.text, y) {
      ExplicitIff(lib, cands, ctx.text, y);
    }
    forall y ensures MostRecent(lib, db, ctx.sender, cands) == Some(y) <==> SpokeLast(lib, db, ctx.sender, cands, y) {
      MostRecentIff(lib, db, ctx.sender, cands, y);
    }
    KeywordWinsIff(lib, cands, ctx.text, x);
    var chosen, sticky := ExplicitSelection(lib, cands, ctx.text), MostRecent(lib, db, ctx.sender, cands);
    assert chosen.Some? ==> IsChosen(lib, cands, ctx.text, chosen.value);
    assert sticky.Some? ==> SpokeLast(lib, db, ctx.sender, cands, sticky.value);
  }

  /** The whole routing decision, branch by branch: no address, no candidate, one candidate; and among several the one
      that the text, then the recent history, then the keywords decide for, or the menu of all if nothing decides. */
  lemma RouteDecides(lib: Library, agents: map<Id, Agent>, db: Database, hires: seq<Hire>, ctx: Context)
    requires IsDatabase(db) && NoDuplicates(hires)
    requires forall g, h :: g in hires && h in hires && g.client == h.client && g.agent == h.agent ==> g == h
    ensures var cands, decision := Candidates(lib, agents, hires, ctx.kind, ctx.address), ResolveRoute(lib, agents, db, hires, ctx);
      && (ctx.address == "" ==> decision == Unroutable(MissingIdentifier))
      && (ctx.address != "" && cands == [] ==> decision == Unroutable(NoCandidates))
      && (ctx.address != "" && |cands| == 1 ==> decision == Resolved(cands[0]))
      && (ctx.address != "" && |cands| >= 2 ==>
        && (forall x :: decision == Resolved(x) <==> Decides(lib, db, cands, ctx, x))
        && (decision.Ambiguous? <==> forall x :: !Decides(lib, db, cands, ctx, x))
        && (decision.Ambiguous? ==> decision.candidates == SortedByName(lib, cands) && decision.prompt == MenuLines(decision.candidates, ") ")))
  {
    hide Decides, SortedByName, Choose;
    var cands := Candidates(lib, agents, hires, ctx.kind, ctx.address);
    CandidatesSame(lib, agents, hires, hires, ctx.kind, ctx.address);
    if ctx.address != "" && |cands| >= 2 {
      forall x ensures Choose(lib, db, cands, ctx) == Resolved(x) <==> Decides(lib, db, cands, ctx, x) {
        ChooseIff(lib, db, cands, ctx, x);
      }
      ChooseShapes(lib, db, cands, ctx);
    } else {
      ChooseShapes(lib, db, cands, ctx);
    }
  }

  lemma ChooseShapes(lib: Library, db: Database, cands: seq<Candidate>, ctx: Context)
    ensures var decision := Choose(lib, db, cands, ctx);
      && (cands == [] ==> decision == Unroutable(NoCandidates))
      && (|cands| == 1 ==> decision == Resolved(cands[0]))
      && (|cands| >= 2 ==> decision.Resolved? || decision == Ambiguous(SortedByName(lib, cands), MenuLines(SortedByName(lib, cands), ") ")))
  {
    hide ExplicitSelection, MostRecent, KeywordSelection, SortedByName;
  }
}
