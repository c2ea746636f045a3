/**
 * The delimiter-based formatting engine of the chat client
 * (src/utils/textFormatter.ts).  A rule pairs a literal delimiter with a set of
 * styles; `ParseFormattedText` scans the text left to right and, at each step,
 * takes the enabled rule whose delimiter opens earliest and closes again later,
 * emitting the text before it unstyled and the text between the two delimiters
 * styled with the rule.
 *
 * Each step of the scan is specified by `NextMatch` and the whole scan by
 * `ParseFrom` / `Parse`; the two methods that follow the source's loops are
 * proved equal to them, and the properties of the result are lemmas about the
 * functions.
 */
module TextFormatter {
  import opened Wrappers
  import opened Strings

  /** The optional CSS properties a rule may set. */
  datatype Styles = Styles(
    fontWeight: Option<string>,
    fontStyle: Option<string>,
    textDecoration: Option<string>,
    fontSize: Option<string>,
    color: Option<string>,
    backgroundColor: Option<string>,
    fontFamily: Option<string>)

  datatype Rule = Rule(id: string, delimiter: string, name: string, styles: Styles, enabled: bool)

  datatype Settings = Settings(enabled: bool, rules: seq<Rule>)

  /** A piece of the output: unstyled when `rule` is absent. */
  datatype Segment = Segment(content: string, rule: Option<Rule>)

  /** An opening delimiter at `index` whose closing delimiter ends just before `endIndex`. */
  datatype Match = Match(index: nat, rule: Rule, endIndex: nat)

  // ---------------------------------------------------------------------------
  // Default rules

  const NoStyles := Styles(None, None, None, None, None, None, None)

  function DefaultFormattingRules(): seq<Rule> {
    [ Rule("actions", "*", "Actions",
           NoStyles.(fontStyle := Some("italic"), color := Some("#8B4513"), fontFamily := Some("Georgia, serif")),
           true),
      Rule("speech", "\"", "Speech",
           NoStyles.(color := Some("#228B22"), fontFamily := Some("Arial, sans-serif")),
           true),
      Rule("thoughts", "~", "Thoughts",
           NoStyles.(fontStyle := Some("italic"), color := Some("#4169E1"), fontSize := Some("0.9em"),
                     fontFamily := Some("Times New Roman, serif")),
           true),
      Rule("emphasis", "_", "Emphasis",
           NoStyles.(fontWeight := Some("bold"), color := Some("#DC143C")),
           true) ]
  }

  /** Formatting is on, with the four roleplay rules `*`, `"`, `~`, `_` in that order, all enabled. */
  function CreateDefaultFormattingSettings(): (s: Settings)
    ensures s.enabled && |s.rules| == 4
    ensures s.rules[0].delimiter == "*" && s.rules[1].delimiter == "\""
    ensures s.rules[2].delimiter == "~" && s.rules[3].delimiter == "_"
    ensures forall i :: 0 <= i < |s.rules| ==> s.rules[i].enabled && |s.rules[i].delimiter| == 1
    ensures forall i, j :: 0 <= i < j < |s.rules| ==> s.rules[i].delimiter != s.rules[j].delimiter
  {
    Settings(true, DefaultFormattingRules())
  }

  // ---------------------------------------------------------------------------
  // stylesToCSS

  /** Whether `css` carries `style` exactly when it is truthy, and then with the same value. */
  predicate CopiedIfTruthy(style: Option<string>, css: Option<string>) {
    if Truthy(style) then css == style else css.None?
  }

  /**
   * `stylesToCSS`: starting from an empty style object, copies each style
   * field that is truthy (present and non-empty) and nothing else.
   */
  method StylesToCSS(styles: Styles) returns (css: Styles)
    ensures CopiedIfTruthy(styles.fontWeight, css.fontWeight)
    ensures CopiedIfTruthy(styles.fontStyle, css.fontStyle)
    ensures CopiedIfTruthy(styles.textDecoration, css.textDecoration)
    ensures CopiedIfTruthy(styles.fontSize, css.fontSize)
    ensures CopiedIfTruthy(styles.color, css.color)
    ensures CopiedIfTruthy(styles.backgroundColor, css.backgroundColor)
    ensures CopiedIfTruthy(styles.fontFamily, css.fontFamily)
  {
    css := NoStyles;
    if Truthy(styles.fontWeight) { css := css.(fontWeight := styles.fontWeight); }
    if Truthy(styles.fontStyle) { css := css.(fontStyle := styles.fontStyle); }
    if Truthy(styles.textDecoration) { css := css.(textDecoration := styles.textDecoration); }
    if Truthy(styles.fontSize) { css := css.(fontSize := styles.fontSize); }
    if Truthy(styles.color) { css := css.(color := styles.color); }
    if Truthy(styles.backgroundColor) { css := css.(backgroundColor := styles.backgroundColor); }
    if Truthy(styles.fontFamily) { css := css.(fontFamily := styles.fontFamily); }
  }

  // ---------------------------------------------------------------------------
  // Literal substring search

  /** `d` occurs in `text` starting at `i`. */
  predicate Occurs(text: string, d: string, i: nat) {
    i + |d| <= |text| && text[i..i + |d|] == d
  }

  /** `text.indexOf(d, from)`: the first occurrence of `d` at or after `from`. */
  function IndexOf(text: string, d: string, from: nat): (r: Option<nat>)
    requires from <= |text|
    ensures r.Some? ==> from <= r.value && r.value + |d| <= |text|
    decreases |text| - from
  {
    if from + |d| > |text| then None
    else if text[from..from + |d|] == d then Some(from)
    else IndexOf(text, d, from + 1)
  }

  /** `IndexOf` finds the first occurrence at or after `from`, and finds none only when there is none. */
  lemma {:induction false} IndexOfIsFirst(text: string, d: string, from: nat)
    requires from <= |text|
    ensures IndexOf(text, d, from).Some? ==> Occurs(text, d, IndexOf(text, d, from).value)
    ensures IndexOf(text, d, from).Some? ==> forall j :: from <= j < IndexOf(text, d, from).value ==> !Occurs(text, d, j)
    ensures IndexOf(text, d, from).None? ==> forall j :: from <= j ==> !Occurs(text, d, j)
    decreases |text| - from
  {
    if from + |d| <= |text| && text[from..from + |d|] != d {
      IndexOfIsFirst(text, d, from + 1);
    }
  }

  lemma IndexOfFound(text: string, d: string, from: nat, i: nat)
    requires from <= |text| && IndexOf(text, d, from) == Some(i)
    ensures Occurs(text, d, i)
    ensures forall j :: from <= j < i ==> !Occurs(text, d, j)
  {
    IndexOfIsFirst(text, d, from);
  }

  lemma IndexOfMissing(text: string, d: string, from: nat)
    requires from <= |text| && IndexOf(text, d, from).None?
    ensures forall j :: from <= j ==> !Occurs(text, d, j)
  {
    IndexOfIsFirst(text, d, from);
  }

  // ---------------------------------------------------------------------------
  // One step of the scan

  /** The positions of a match found from `cur` lie in order inside the text. */
  predicate InOrder(text: string, cur: nat, m: Match) {
    cur <= m.index && m.index + 2 * |m.rule.delimiter| <= m.endIndex <= |text|
  }

  /**
   * What a match found from `cur` is: its delimiter opens at `index`, the
   * first occurrence at or after `cur`, and closes at `endIndex - |d|`, the
   * first occurrence after the opening one.
   */
  ghost predicate IsFirstPairFrom(text: string, cur: nat, m: Match) {
    var d := m.rule.delimiter;
    && InOrder(text, cur, m)
    && Occurs(text, d, m.index)
    && Occurs(text, d, m.endIndex - |d|)
    && (forall j :: cur <= j < m.index ==> !Occurs(text, d, j))
    && (forall j :: m.index + |d| <= j < m.endIndex - |d| ==> !Occurs(text, d, j))
  }

  /** `d` opens at or after `cur` and occurs again after that opening. */
  ghost predicate HasPairFrom(text: string, d: string, cur: nat) {
    exists i, j :: cur <= i && i + |d| <= j && Occurs(text, d, i) && Occurs(text, d, j)
  }

  /**
   * The body of the source's `for (const rule of activeRules)` loop for one
   * rule, as written: the first occurrence of the delimiter from `cur`, kept
   * only when the delimiter occurs again after it.
   */
  function CandidateAsWritten(text: string, rule: Rule, cur: nat): (r: Option<Match>)
    requires cur <= |text|
    ensures r.Some? ==> r.value.rule == rule && InOrder(text, cur, r.value)
  {
    var d := rule.delimiter;
    match IndexOf(text, d, cur)
    case None => None
    case Some(start) =>
      match IndexOf(text, d, start + |d|)
      case None => None
      case Some(close) => Some(Match(start, rule, close + |d|))
  }

  /** The source's step finds the first complete pair of the delimiter, when there is one. */
  lemma CandidateAsWrittenIsFirstPair(text: string, rule: Rule, cur: nat)
    requires cur <= |text|
    ensures CandidateAsWritten(text, rule, cur).Some? ==> IsFirstPairFrom(text, cur, CandidateAsWritten(text, rule, cur).value)
    ensures CandidateAsWritten(text, rule, cur).None? <==> !HasPairFrom(text, rule.delimiter, cur)
  {
    var c := CandidateAsWritten(text, rule, cur);
    if c.Some? {
      FoundIsFirstPair(text, rule, cur);
    } else {
      NotFoundNoPair(text, rule, cur);
    }
  }

  lemma FoundIsFirstPair(text: string, rule: Rule, cur: nat)
    requires cur <= |text| && CandidateAsWritten(text, rule, cur).Some?
    ensures IsFirstPairFrom(text, cur, CandidateAsWritten(text, rule, cur).value)
    ensures HasPairFrom(text, rule.delimiter, cur)
  {
    var d := rule.delimiter;
    var start := IndexOf(text, d, cur).value;
    var close := IndexOf(text, d, start + |d|).value;
    assert CandidateAsWritten(text, rule, cur).value == Match(start, rule, close + |d|);
    IndexOfFound(text, d, cur, start);
    IndexOfFound(text, d, start + |d|, close);
    FoundPairIsFirst(text, cur, Match(start, rule, close + |d|));
  }

  lemma NotFoundNoPair(text: string, rule: Rule, cur: nat)
    requires cur <= |text| && CandidateAsWritten(text, rule, cur).None?
    ensures !HasPairFrom(text, rule.delimiter, cur)
  {
    var d := rule.delimiter;
    var first := IndexOf(text, d, cur);
    if first.None? {
      IndexOfMissing(text, d, cur);
      NoOpeningNoPair(text, d, cur);
    } else {
      var start := first.value;
      assert IndexOf(text, d, start + |d|).None?;
      IndexOfFound(text, d, cur, start);
      IndexOfMissing(text, d, start + |d|);
      NoClosingNoPair(text, d, cur, start);
    }
  }

  lemma FoundPairIsFirst(text: string, cur: nat, m: Match)
    requires InOrder(text, cur, m)
    requires Occurs(text, m.rule.delimiter, m.index)
    requires Occurs(text, m.rule.delimiter, m.endIndex - |m.rule.delimiter|)
    requires forall j :: cur <= j < m.index ==> !Occurs(text, m.rule.delimiter, j)
    requires forall j :: m.index + |m.rule.delimiter| <= j < m.endIndex - |m.rule.delimiter| ==> !Occurs(text, m.rule.delimiter, j)
    ensures IsFirstPairFrom(text, cur, m)
    ensures HasPairFrom(text, m.rule.delimiter, cur)
  {
    var d := m.rule.delimiter;
    assert cur <= m.index && m.index + |d| <= m.endIndex - |d| && Occurs(text, d, m.index) && Occurs(text, d, m.endIndex - |d|);
  }

  lemma NoOpeningNoPair(text: string, d: string, cur: nat)
    requires forall j :: cur <= j ==> !Occurs(text, d, j)
    ensures !HasPairFrom(text, d, cur)
  {
  }

  lemma NoClosingNoPair(text: string, d: string, cur: nat, start: nat)
    requires cur <= start
    requires forall j :: cur <= j < start ==> !Occurs(text, d, j)
    requires forall j :: start + |d| <= j ==> !Occurs(text, d, j)
    ensures !HasPairFrom(text, d, cur)
  {
    forall i, j | cur <= i && i + |d| <= j && Occurs(text, d, i)
      ensures !Occurs(text, d, j)
    {
      assert start <= i;
    }
  }

  /**
   * The same step with empty delimiters skipped (see `CandidateAsWritten`: an
   * empty delimiter matches itself where the scan stands, and the scan never
   * advances).  A match found from `cur` ends after `cur`.
   */
  function Candidate(text: string, rule: Rule, cur: nat): (r: Option<Match>)
    requires cur <= |text|
    ensures r.Some? ==> r.value.rule == rule && InOrder(text, cur, r.value) && cur < r.value.endIndex
  {
    if rule.delimiter == "" then None else CandidateAsWritten(text, rule, cur)
  }

  /**
   * A rule has a candidate from `cur` exactly when its delimiter is non-empty
   * and has a complete pair from `cur`, and the candidate is the first such pair.
   */
  lemma CandidateIsFirstPair(text: string, rule: Rule, cur: nat)
    requires cur <= |text|
    ensures Candidate(text, rule, cur).Some? ==> IsFirstPairFrom(text, cur, Candidate(text, rule, cur).value)
    ensures Candidate(text, rule, cur).None? <==> rule.delimiter == "" || !HasPairFrom(text, rule.delimiter, cur)
  {
    CandidateAsWrittenIsFirstPair(text, rule, cur);
  }

  /** Replaces `best` with `c` only when `c` opens strictly earlier (the source's `<`). */
  function Pick(best: Option<Match>, c: Option<Match>): Option<Match> {
    if c.Some? && (best.None? || c.value.index < best.value.index) then c else best
  }

  /** The candidates considered in list order, kept by `Pick` one after another. */
  function Earliest(cands: seq<Option<Match>>): (r: Option<Match>)
    ensures r.Some? ==> r in cands
    decreases |cands|
  {
    if cands == [] then None else Pick(Earliest(cands[..|cands| - 1]), cands[|cands| - 1])
  }

  function Candidates(text: string, rules: seq<Rule>, cur: nat): (cs: seq<Option<Match>>)
    requires cur <= |text|
    ensures |cs| == |rules|
    ensures forall k :: 0 <= k < |rules| ==> cs[k] == Candidate(text, rules[k], cur)
  {
    seq(|rules|, k requires 0 <= k < |rules| => Candidate(text, rules[k], cur))
  }

  function CandidatesAsWritten(text: string, rules: seq<Rule>, cur: nat): (cs: seq<Option<Match>>)
    requires cur <= |text|
    ensures |cs| == |rules|
    ensures forall k :: 0 <= k < |rules| ==> cs[k] == CandidateAsWritten(text, rules[k], cur)
  {
    seq(|rules|, k requires 0 <= k < |rules| => CandidateAsWritten(text, rules[k], cur))
  }

  /** The match chosen by one iteration of the scan from `cur`; it always makes progress. */
  function NextMatch(text: string, rules: seq<Rule>, cur: nat): (r: Option<Match>)
    requires cur <= |text|
    ensures r.Some? ==> r.value.rule in rules && InOrder(text, cur, r.value) && cur < r.value.endIndex
  {
    var cs := Candidates(text, rules, cur);
    var r := Earliest(cs);
    assert r.Some? ==> exists k :: 0 <= k < |rules| && cs[k] == r;
    r
  }

  /** The match the source's loop chooses, empty delimiters included. */
  function NextMatchAsWritten(text: string, rules: seq<Rule>, cur: nat): Option<Match>
    requires cur <= |text|
  {
    Earliest(CandidatesAsWritten(text, rules, cur))
  }

  /** The body of the `for` loop for one rule: that rule's complete pair from `currentIndex`, if any. */
  method FindCandidate(text: string, rule: Rule, currentIndex: nat) returns (c: Option<Match>)
    requires currentIndex <= |text|
    ensures c == Candidate(text, rule, currentIndex)
  {
    var d := rule.delimiter;
    if d == "" {
      return None;
    }
    var startIndex := IndexOf(text, d, currentIndex);
    if startIndex.None? {
      return None;
    }
    var endDelimiterIndex := IndexOf(text, d, startIndex.value + |d|);
    if endDelimiterIndex.None? {
      return None;
    }
    c := Some(Match(startIndex.value, rule, endDelimiterIndex.value + |d|));
  }

  /**
   * The `for` loop of `parseFormattedText` (lines 75-93), with empty
   * delimiters skipped: it returns the match `NextMatch` specifies.
   */
  method FindNextMatch(text: string, activeRules: seq<Rule>, currentIndex: nat) returns (nextMatch: Option<Match>)
    requires currentIndex <= |text|
    ensures nextMatch == NextMatch(text, activeRules, currentIndex)
  {
    ghost var cs := Candidates(text, activeRules, currentIndex);
    nextMatch := None;
    for i := 0 to |activeRules|
      invariant nextMatch == Earliest(cs[..i])
    {
      var c := FindCandidate(text, activeRules[i], currentIndex);
      assert cs[..i + 1][..i] == cs[..i] && cs[..i + 1][i] == c;
      assert Earliest(cs[..i + 1]) == Pick(nextMatch, c);
      if c.Some? && (nextMatch.None? || c.value.index < nextMatch.value.index) {
        nextMatch := c;
      }
    }
    assert cs[..|activeRules|] == cs;
  }

  // ---------------------------------------------------------------------------
  // The whole scan

  /** `settings.rules.filter(rule => rule.enabled)`. */
  function EnabledRules(rules: seq<Rule>): (r: seq<Rule>)
    ensures |r| <= |rules|
    ensures forall x :: x in r <==> x in rules && x.enabled
    ensures (forall x :: x in rules ==> !x.enabled) ==> r == []
  {
    if rules == [] then []
    else (if rules[0].enabled then [rules[0]] else []) + EnabledRules(rules[1..])
  }

  /** How many rules of the list are enabled. */
  function EnabledCount(rules: seq<Rule>): nat {
    if rules == [] then 0 else (if rules[0].enabled then 1 else 0) + EnabledCount(rules[1..])
  }

  /** Counting the enabled rules of a non-empty prefix: the first rule, then the rest of the prefix. */
  lemma EnabledCountPrefix(rules: seq<Rule>, j: nat)
    requires 0 < j <= |rules|
    ensures EnabledCount(rules[..j]) == (if rules[0].enabled then 1 else 0) + EnabledCount(rules[1..][..j - 1])
  {
    assert rules[..j][1..] == rules[1..][..j - 1];
  }

  /** The active list has one entry per enabled rule. */
  lemma {:induction false} EnabledRulesLength(rules: seq<Rule>)
    ensures |EnabledRules(rules)| == EnabledCount(rules)
    decreases |rules|
  {
    if rules != [] {
      EnabledRulesLength(rules[1..]);
    }
  }

  /** An enabled rule sits in the active list at the number of enabled rules configured before it. */
  lemma {:induction false} EnabledRulePosition(rules: seq<Rule>, j: nat)
    requires j < |rules| && rules[j].enabled
    ensures EnabledCount(rules[..j]) < |EnabledRules(rules)|
    ensures EnabledRules(rules)[EnabledCount(rules[..j])] == rules[j]
    decreases j
  {
    if j == 0 {
      assert rules[..0] == [];
    } else {
      EnabledRulePosition(rules[1..], j - 1);
      EnabledCountPrefix(rules, j);
    }
  }

  /** An enabled rule configured before position `j2` has fewer enabled rules before it. */
  lemma {:induction false} EnabledCountGrows(rules: seq<Rule>, j1: nat, j2: nat)
    requires j1 < j2 <= |rules| && rules[j1].enabled
    ensures EnabledCount(rules[..j1]) < EnabledCount(rules[..j2])
    decreases j1
  {
    EnabledCountPrefix(rules, j2);
    if j1 == 0 {
      assert rules[..0] == [];
    } else {
      EnabledCountGrows(rules[1..], j1 - 1, j2 - 1);
      EnabledCountPrefix(rules, j1);
    }
  }

  /**
   * `filter` keeps list order: the active list is as long as the number of
   * enabled rules, and an enabled rule at position `j` of the configured list
   * sits in the active list at the number of enabled rules before it.  So an
   * enabled rule configured before another is also active before it, and the
   * list-order tie-break of the scan is the configured order.
   */
  lemma EnabledRulesInOrder(rules: seq<Rule>)
    ensures |EnabledRules(rules)| == EnabledCount(rules)
    ensures forall j :: 0 <= j < |rules| && rules[j].enabled ==>
      EnabledCount(rules[..j]) < |EnabledRules(rules)| && EnabledRules(rules)[EnabledCount(rules[..j])] == rules[j]
    ensures forall j1, j2 :: 0 <= j1 < j2 <= |rules| && rules[j1].enabled ==>
      EnabledCount(rules[..j1]) < EnabledCount(rules[..j2])
  {
    EnabledRulesLength(rules);
    forall j | 0 <= j < |rules| && rules[j].enabled
      ensures EnabledCount(rules[..j]) < |EnabledRules(rules)|
      ensures EnabledRules(rules)[EnabledCount(rules[..j])] == rules[j]
    {
      EnabledRulePosition(rules, j);
    }
    forall j1, j2 | 0 <= j1 < j2 <= |rules| && rules[j1].enabled
      ensures EnabledCount(rules[..j1]) < EnabledCount(rules[..j2])
    {
      EnabledCountGrows(rules, j1, j2);
    }
  }

  /**
   * What one matched step pushes: the text between `cur` and the opening
   * delimiter, unstyled, when there is any; then the text between the two
   * delimiters, styled with the rule.
   */
  function Emitted(text: string, cur: nat, m: Match): seq<Segment>
    requires InOrder(text, cur, m)
  {
    var n := |m.rule.delimiter|;
    (if m.index > cur then [Segment(text[cur..m.index], None)] else [])
    + [Segment(text[m.index + n..m.endIndex - n], Some(m.rule))]
  }

  /** The segments the scan emits from `cur` on. */
  function ParseFrom(text: string, rules: seq<Rule>, cur: nat): seq<Segment>
    requires cur <= |text|
    decreases |text| - cur
  {
    if cur == |text| then []
    else
      match NextMatch(text, rules, cur)
      case None => [Segment(text[cur..], None)]
      case Some(m) => Emitted(text, cur, m) + ParseFrom(text, rules, m.endIndex)
  }

  /** Formatting is off: absent settings, disabled settings, or no rule at all. */
  predicate FormattingOff(settings: Option<Settings>) {
    settings.None? || !settings.value.enabled || |settings.value.rules| == 0
  }

  /** What `parseFormattedText(text, settings)` returns. */
  function Parse(text: string, settings: Option<Settings>): seq<Segment> {
    if FormattingOff(settings) then [Segment(text, None)]
    else
      var active := EnabledRules(settings.value.rules);
      if |active| == 0 then [Segment(text, None)] else ParseFrom(text, active, 0)
  }

  /**
   * `parseFormattedText`: the early returns, then the `while` loop that
   * pushes segments and advances `currentIndex` past each match.
   */
  method ParseFormattedText(text: string, settings: Option<Settings>) returns (segments: seq<Segment>)
    ensures segments == Parse(text, settings)
  {
    if FormattingOff(settings) {
      return [Segment(text, None)];
    }
    var activeRules := EnabledRules(settings.value.rules);
    if |activeRules| == 0 {
      return [Segment(text, None)];
    }
    segments := [];
    var currentIndex: nat := 0;
    ghost var all := ParseFrom(text, activeRules, 0);
    while currentIndex < |text|
      invariant currentIndex <= |text|
      invariant segments + ParseFrom(text, activeRules, currentIndex) == all
      decreases |text| - currentIndex
    {
      var nextMatch := FindNextMatch(text, activeRules, currentIndex);
      ParseFromStep(text, activeRules, currentIndex);
      if nextMatch.Some? {
        var m := nextMatch.value;
        // the unstyled text before the match (if any), then the styled content
        var pushed := Emitted(text, currentIndex, m);
        ghost var later := ParseFrom(text, activeRules, m.endIndex);
        assert segments + (pushed + later) == (segments + pushed) + later;
        segments := segments + pushed;
        currentIndex := m.endIndex;
      } else {
        segments := segments + [Segment(text[currentIndex..], None)];
        break;
      }
    }
  }

  /** One step of the scan, unfolded. */
  lemma ParseFromStep(text: string, rules: seq<Rule>, cur: nat)
    requires cur < |text|
    ensures NextMatch(text, rules, cur).None? ==>
      ParseFrom(text, rules, cur) == [Segment(text[cur..], None)]
    ensures NextMatch(text, rules, cur).Some? ==>
      var m := NextMatch(text, rules, cur).value;
      ParseFrom(text, rules, cur) == Emitted(text, cur, m) + ParseFrom(text, rules, m.endIndex)
  {
  }

  // ---------------------------------------------------------------------------
  // Properties of the scan

  /** Formatting off, or no enabled rule: the text comes back as one unstyled segment. */
  lemma PassThrough(text: string, settings: Option<Settings>)
    requires FormattingOff(settings) || forall r :: r in settings.value.rules ==> !r.enabled
    ensures Parse(text, settings) == [Segment(text, None)]
  {
  }

  /** With some rule enabled, empty text gives no segment at all, not one empty segment. */
  lemma EmptyTextNoSegments(settings: Settings)
    requires settings.enabled
    requires exists r :: r in settings.rules && r.enabled
    ensures Parse("", Some(settings)) == []
  {
    var r :| r in settings.rules && r.enabled;
    assert r in EnabledRules(settings.rules);
  }

  /** A segment written back as text: styled content between two copies of its delimiter. */
  function Unparse(s: Segment): string {
    match s.rule
    case None => s.content
    case Some(r) => r.delimiter + s.content + r.delimiter
  }

  function Render(segments: seq<Segment>): string
    decreases |segments|
  {
    if segments == [] then "" else Unparse(segments[0]) + Render(segments[1..])
  }

  lemma {:induction false} RenderAppend(a: seq<Segment>, b: seq<Segment>)
    ensures Render(a + b) == Render(a) + Render(b)
    decreases |a|
  {
    if a != [] {
      assert (a + b)[0] == a[0];
      assert (a + b)[1..] == a[1..] + b;
      RenderAppend(a[1..], b);
    } else {
      assert a + b == b;
    }
  }

  lemma SliceSplit(s: string, i: nat, j: nat, k: nat)
    requires i <= j <= k <= |s|
    ensures s[i..j] + s[j..k] == s[i..k]
  {
    assert forall t :: 0 <= t < k - i ==> (s[i..j] + s[j..k])[t] == s[i..k][t];
  }

  lemma RenderOne(s: Segment)
    ensures Render([s]) == Unparse(s)
  {
    assert [s][1..] == [];
  }

  /** One step writes back to the text it consumed. */
  lemma EmittedRoundTrip(text: string, cur: nat, m: Match)
    requires InOrder(text, cur, m)
    requires Occurs(text, m.rule.delimiter, m.index) && Occurs(text, m.rule.delimiter, m.endIndex - |m.rule.delimiter|)
    ensures Render(Emitted(text, cur, m)) == text[cur..m.endIndex]
  {
    var d := m.rule.delimiter;
    var a := m.index + |d|;
    var b := m.endIndex - |d|;
    var before := if m.index > cur then [Segment(text[cur..m.index], None)] else [];
    var styled := Segment(text[a..b], Some(m.rule));
    assert Emitted(text, cur, m) == before + [styled];
    RenderAppend(before, [styled]);
    if m.index > cur {
      RenderOne(before[0]);
    }
    assert Render(before) == text[cur..m.index];
    RenderOne(styled);
    assert text[m.index..a] == d && text[b..m.endIndex] == d;
    SliceSplit(text, m.index, a, b);
    SliceSplit(text, m.index, b, m.endIndex);
    SliceSplit(text, cur, m.index, m.endIndex);
  }

  lemma {:induction false} ParseFromRoundTrip(text: string, rules: seq<Rule>, cur: nat)
    requires cur <= |text|
    ensures Render(ParseFrom(text, rules, cur)) == text[cur..]
    decreases |text| - cur
  {
    if cur < |text| {
      ParseFromStep(text, rules, cur);
      var r := NextMatch(text, rules, cur);
      if r.None? {
        RenderOne(Segment(text[cur..], None));
      } else {
        var m := r.value;
        ParseFromRoundTrip(text, rules, m.endIndex);
        NextMatchDelimited(text, rules, cur);
        StepRoundTrip(text, cur, m, ParseFrom(text, rules, m.endIndex));
      }
    } else {
      assert ParseFrom(text, rules, cur) == [];
    }
  }

  lemma StepRoundTrip(text: string, cur: nat, m: Match, rest: seq<Segment>)
    requires InOrder(text, cur, m)
    requires Occurs(text, m.rule.delimiter, m.index) && Occurs(text, m.rule.delimiter, m.endIndex - |m.rule.delimiter|)
    requires Render(rest) == text[m.endIndex..]
    ensures Render(Emitted(text, cur, m) + rest) == text[cur..]
  {
    var e := Emitted(text, cur, m);
    EmittedRoundTrip(text, cur, m);
    RenderAppend(e, rest);
    SliceSplit(text, cur, m.endIndex, |text|);
    calc {
      Render(e + rest);
      Render(e) + Render(rest);
      text[cur..m.endIndex] + text[m.endIndex..|text|];
    }
  }

  /** The chosen match sits between two occurrences of its delimiter. */
  lemma NextMatchDelimited(text: string, rules: seq<Rule>, cur: nat)
    requires cur <= |text|
    ensures NextMatch(text, rules, cur).Some? ==>
      var m := NextMatch(text, rules, cur).value;
      Occurs(text, m.rule.delimiter, m.index) && Occurs(text, m.rule.delimiter, m.endIndex - |m.rule.delimiter|)
  {
    NextMatchIsFirstPair(text, rules, cur);
  }

  /**
   * Round trip: writing each styled segment back between two copies of its
   * rule's delimiter and concatenating everything gives the input text.
   */
  lemma ParseRoundTrip(text: string, settings: Option<Settings>)
    ensures Render(Parse(text, settings)) == text
  {
    if !FormattingOff(settings) {
      var active := EnabledRules(settings.value.rules);
      if |active| > 0 {
        ParseFromRoundTrip(text, active, 0);
      }
    }
  }

  /** `Earliest` keeps a candidate with the smallest index, and among those the first one. */
  lemma {:induction false} EarliestIsFirstMinimum(cands: seq<Option<Match>>)
    ensures Earliest(cands).None? <==> forall k :: 0 <= k < |cands| ==> cands[k].None?
    ensures forall k :: 0 <= k < |cands| && cands[k].Some? ==>
      Earliest(cands).Some? && Earliest(cands).value.index <= cands[k].value.index
    ensures Earliest(cands).Some? ==>
      exists k :: 0 <= k < |cands| && cands[k] == Earliest(cands) &&
        forall j :: 0 <= j < k && cands[j].Some? ==> cands[j].value.index > Earliest(cands).value.index
    decreases |cands|
  {
    if cands != [] {
      var init := cands[..|cands| - 1];
      var last := cands[|cands| - 1];
      EarliestIsFirstMinimum(init);
      var b := Earliest(init);
      var r := Earliest(cands);
      assert forall k :: 0 <= k < |init| ==> init[k] == cands[k];
      if r.Some? {
        if last.Some? && (b.None? || last.value.index < b.value.index) {
          assert cands[|cands| - 1] == r;
          assert forall j :: 0 <= j < |init| && cands[j].Some? ==> cands[j].value.index > r.value.index;
        } else {
          var k :| 0 <= k < |init| && init[k] == b
            && forall j :: 0 <= j < k && init[j].Some? ==> init[j].value.index > b.value.index;
          assert cands[k] == r;
        }
      }
    }
  }

  /**
   * The chosen match opens no later than any rule's candidate (it is the
   * earliest complete pair), and every rule listed before the winner either
   * has no pair or opens strictly later: on equal index the earlier rule wins.
   */
  lemma NextMatchIsEarliest(text: string, rules: seq<Rule>, cur: nat)
    requires cur <= |text|
    ensures NextMatch(text, rules, cur).None? <==>
      forall k :: 0 <= k < |rules| ==> Candidate(text, rules[k], cur).None?
    ensures forall k :: 0 <= k < |rules| && Candidate(text, rules[k], cur).Some? ==>
      NextMatch(text, rules, cur).Some? &&
      NextMatch(text, rules, cur).value.index <= Candidate(text, rules[k], cur).value.index
    ensures NextMatch(text, rules, cur).Some? ==>
      exists k :: 0 <= k < |rules| && Candidate(text, rules[k], cur) == NextMatch(text, rules, cur) &&
        forall j :: 0 <= j < k && Candidate(text, rules[j], cur).Some? ==>
             Candidate(text, rules[j], cur).value.index > NextMatch(text, rules, cur).value.index
  {
    var cs := Candidates(text, rules, cur);
    EarliestIsFirstMinimum(cs);
    var r := NextMatch(text, rules, cur);
    if r.Some? {
      var k :| 0 <= k < |cs| && cs[k] == r
        && forall j :: 0 <= j < k && cs[j].Some? ==> cs[j].value.index > r.value.index;
      assert Candidate(text, rules[k], cur) == r;
    }
  }

  /** The chosen match is the first complete pair, from `cur`, of its rule's delimiter. */
  lemma NextMatchIsFirstPair(text: string, rules: seq<Rule>, cur: nat)
    requires cur <= |text|
    ensures NextMatch(text, rules, cur).Some? ==>
      var m := NextMatch(text, rules, cur).value;
      IsFirstPairFrom(text, cur, m) && m.rule.delimiter != "" && HasPairFrom(text, m.rule.delimiter, cur)
  {
    var r := NextMatch(text, rules, cur);
    if r.Some? {
      NextMatchIsEarliest(text, rules, cur);
      var k :| 0 <= k < |rules| && Candidate(text, rules[k], cur) == r;
      CandidateIsFirstPair(text, rules[k], cur);
    }
  }

  /** Text of a styled segment contains no occurrence of `d`. */
  ghost predicate Contains(s: string, d: string) {
    exists i :: Occurs(s, d, i)
  }

  lemma OccursInSlice(text: string, a: nat, b: nat, d: string, p: nat)
    requires a <= b <= |text| && Occurs(text[a..b], d, p)
    ensures Occurs(text, d, a + p)
  {
    var u := text[a..b][p..p + |d|];
    var v := text[a + p..a + p + |d|];
    assert forall t :: 0 <= t < |d| ==> u[t] == v[t];
    assert u == v;
  }

  /** What every segment emitted from `cur` satisfies. */
  ghost predicate WellFormedSegment(text: string, rules: seq<Rule>, s: Segment) {
    match s.rule
    case None => s.content != ""
    case Some(r) =>
      && r in rules
      && r.delimiter != ""
      && HasPairFrom(text, r.delimiter, 0)
      && !Contains(s.content, r.delimiter)
  }

  lemma EmittedWellFormed(text: string, rules: seq<Rule>, cur: nat, m: Match)
    requires IsFirstPairFrom(text, cur, m) && m.rule in rules && m.rule.delimiter != ""
    ensures forall s :: s in Emitted(text, cur, m) ==> WellFormedSegment(text, rules, s)
  {
    var d := m.rule.delimiter;
    var n := |d|;
    var a := m.index + n;
    var b := m.endIndex - n;
    assert HasPairFrom(text, d, 0) by {
      assert Occurs(text, d, m.index) && Occurs(text, d, b);
    }
    assert !Contains(text[a..b], d) by {
      forall p: nat | Occurs(text[a..b], d, p) ensures false {
        OccursInSlice(text, a, b, d, p);
      }
    }
  }

  lemma {:induction false} ParseFromWellFormed(text: string, rules: seq<Rule>, cur: nat)
    requires cur <= |text|
    ensures forall s :: s in ParseFrom(text, rules, cur) ==> WellFormedSegment(text, rules, s)
    decreases |text| - cur
  {
    if cur < |text| {
      match NextMatch(text, rules, cur)
      case None =>
      case Some(m) =>
        NextMatchIsFirstPair(text, rules, cur);
        EmittedWellFormed(text, rules, cur, m);
        ParseFromWellFormed(text, rules, m.endIndex);
    }
  }

  /**
   * Every styled segment carries an enabled rule of the settings whose
   * (non-empty) delimiter has an opening and a closing occurrence in the text,
   * and its content contains no occurrence of that delimiter; every unstyled
   * segment is non-empty, except the single passthrough segment of an empty text.
   */
  lemma ParseWellFormed(text: string, settings: Option<Settings>)
    ensures forall s :: s in Parse(text, settings) && s.rule.Some? ==>
      var r := s.rule.value;
      && !FormattingOff(settings) && r in settings.value.rules && r.enabled
      && r.delimiter != "" && HasPairFrom(text, r.delimiter, 0) && !Contains(s.content, r.delimiter)
    ensures text != "" ==> forall s :: s in Parse(text, settings) && s.rule.None? ==> s.content != ""
  {
    if !FormattingOff(settings) {
      var active := EnabledRules(settings.value.rules);
      if |active| > 0 {
        ParseFromWellFormed(text, active, 0);
      }
    }
  }

  /** A delimiter that never occurs twice in the text (a dangling one) styles nothing. */
  lemma DanglingDelimiterUnstyled(text: string, settings: Option<Settings>, r: Rule)
    requires !HasPairFrom(text, r.delimiter, 0)
    ensures forall s :: s in Parse(text, settings) ==> s.rule != Some(r)
  {
    ParseWellFormed(text, settings);
  }

  /**
   * The source's step with an empty delimiter in first position: the match it
   * picks opens and ends where the scan stands, so `currentIndex` is assigned
   * its own value and the `while` loop never ends.
   */
  lemma EmptyDelimiterStalls(text: string, rules: seq<Rule>, cur: nat)
    requires cur < |text| && |rules| > 0 && rules[0].delimiter == ""
    ensures NextMatchAsWritten(text, rules, cur) == Some(Match(cur, rules[0], cur))
  {
    var cs := CandidatesAsWritten(text, rules, cur);
    assert Occurs(text, "", cur);
    assert cs[0] == Some(Match(cur, rules[0], cur));
    EarliestIsFirstMinimum(cs);
    var k :| 0 <= k < |cs| && cs[k] == Earliest(cs)
      && forall j :: 0 <= j < k && cs[j].Some? ==> cs[j].value.index > Earliest(cs).value.index;
    assert k == 0;
  }

  /**
   * Replacing with `None` candidates that do not hold the winner leaves the
   * winner unchanged.
   */
  lemma EarliestDropLosers(all: seq<Option<Match>>, kept: seq<Option<Match>>)
    requires |kept| == |all|
    requires forall i :: 0 <= i < |all| ==> kept[i] == all[i] || kept[i].None?
    requires Earliest(all).Some?
    requires forall i :: 0 <= i < |all| && all[i] == Earliest(all) ==> kept[i] == all[i]
    ensures Earliest(kept) == Earliest(all)
  {
    var m := Earliest(all);
    EarliestIsFirstMinimum(all);
    var k :| 0 <= k < |all| && all[k] == m
      && forall j :: 0 <= j < k && all[j].Some? ==> all[j].value.index > m.value.index;
    assert kept[k] == m;
    EarliestIsFirstMinimum(kept);
    var e := Earliest(kept);
    var k2 :| 0 <= k2 < |kept| && kept[k2] == e
      && forall j :: 0 <= j < k2 && kept[j].Some? ==> kept[j].value.index > e.value.index;
    assert all[k2] == e;
    if k2 < k {
      assert false;
    } else if k < k2 {
      assert false;
    }
  }

  /**
   * The scan as written and the corrected one choose the same match at every
   * step where the scan as written makes progress, and both find nothing
   * together; the scan as written fails to make progress exactly when it
   * chooses a rule with an empty delimiter, which it then matches, with no
   * content, where it stands.  So the corrected scan gives the source's result
   * on every text the source finishes scanning.
   */
  lemma AsWrittenAgreesUnlessStalled(text: string, rules: seq<Rule>, cur: nat)
    requires cur <= |text|
    ensures NextMatchAsWritten(text, rules, cur).None? ==> NextMatch(text, rules, cur).None?
    ensures NextMatchAsWritten(text, rules, cur).Some? ==>
      var m := NextMatchAsWritten(text, rules, cur).value;
      && (cur < m.endIndex <==> m.rule.delimiter != "")
      && (cur < m.endIndex ==> NextMatch(text, rules, cur) == Some(m))
      && (m.rule.delimiter == "" ==> m.index == cur && m.endIndex == cur)
  {
    var all := CandidatesAsWritten(text, rules, cur);
    var kept := Candidates(text, rules, cur);
    var w := Earliest(all);
    if w.None? {
      AsWrittenNoneAgrees(text, rules, cur);
    } else {
      var m := w.value;
      assert w in all;
      var k :| 0 <= k < |all| && all[k] == w;
      assert m.rule == rules[k];
      if m.rule.delimiter == "" {
        EmptyCandidateStalls(text, rules[k], cur);
      } else {
        forall i | 0 <= i < |all| && all[i] == w
          ensures kept[i] == all[i]
        {
          assert rules[i] == m.rule;
        }
        EarliestDropLosers(all, kept);
      }
    }
  }

  /** An empty delimiter is found, and found again, where the scan stands. */
  lemma EmptyCandidateStalls(text: string, rule: Rule, cur: nat)
    requires cur <= |text| && rule.delimiter == ""
    ensures CandidateAsWritten(text, rule, cur) == Some(Match(cur, rule, cur))
  {
    assert IndexOf(text, "", cur) == Some(cur);
  }

  lemma AsWrittenNoneAgrees(text: string, rules: seq<Rule>, cur: nat)
    requires cur <= |text| && NextMatchAsWritten(text, rules, cur).None?
    ensures NextMatch(text, rules, cur).None?
  {
    EarliestIsFirstMinimum(CandidatesAsWritten(text, rules, cur));
    EarliestIsFirstMinimum(Candidates(text, rules, cur));
  }
}
