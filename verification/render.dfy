/**
 The pure parts of printing one issue: the state icon, the blocked marker, the issue key
 `PROJECT-NUMBER`, and the two icons that open each line.
 */
module Render {
  import opened Options
  import opened Config

  // ANSI escape sequences (ESC is U+001B).
  const Green: string := "\U{1B}[92m"
  const Yellow: string := "\U{1B}[33m"
  const Cyan: string := "\U{1B}[36m"
  const Reset: string := "\U{1B}[0m"

  /** An issue as the tracker returns it; `tags` is absent when the issue has none. */
  datatype Issue = Issue(
    projectShortName: string,
    numberInProject: nat,
    summary: string,
    state: string,
    tags: Option<seq<string>>)

  /**
   The fixed state table: a coloured check mark for done states, a wrench, magnifier,
   sparkles or goal net (each followed by a space) for the others.
   */
  const StateTable: seq<(string, string)> := [
    ("Fertig", Green + "\U{2714}" + Reset),
    ("Umgesetzt", Green + "(\U{2714})" + Reset),
    ("In Entwicklung", Yellow + "\U{1F527} " + Reset),
    ("In Test", Cyan + "\U{1F50E} " + Reset),
    ("Neu", Cyan + "\U{1F4AB} " + Reset),
    ("Eingeplant", Cyan + "\U{1F945} " + Reset)
  ]

  /** The six states that have an icon. */
  lemma KnownStates(state: string)
    ensures HasKey(StateTable, state) <==>
      state in ["Fertig", "Umgesetzt", "In Entwicklung", "In Test", "Neu", "Eingeplant"]
  {
    if state in ["Fertig", "Umgesetzt", "In Entwicklung", "In Test", "Neu", "Eingeplant"] {
      var k :| 0 <= k < 6 && ["Fertig", "Umgesetzt", "In Entwicklung", "In Test", "Neu", "Eingeplant"][k] == state;
      assert StateTable[k].0 == state;
    }
  }

  /**
   The icon shown for a state: the table entry for the six known states, otherwise the
   state's own text. A state is shown as itself exactly when it is not in the table.
   */
  function StateIcon(state: string): (icon: string)
    ensures HasKey(StateTable, state) <==> icon != state
    ensures !HasKey(StateTable, state) ==> icon == state
  {
    var icon :=
      if state == "Fertig" then Green + "\U{2714}" + Reset
      else if state == "Umgesetzt" then Green + "(\U{2714})" + Reset
      else if state == "In Entwicklung" then Yellow + "\U{1F527} " + Reset
      else if state == "In Test" then Cyan + "\U{1F50E} " + Reset
      else if state == "Neu" then Cyan + "\U{1F4AB} " + Reset
      else if state == "Eingeplant" then Cyan + "\U{1F945} " + Reset
      else state;
    KnownStates(state);
    assert HasKey(StateTable, state) ==> icon[0] == '\U{1B}' && state[0] != '\U{1B}';
    icon
  }

  /** The if-chain agrees with a lookup in the table, falling back to the state's text. */
  lemma StateIconIsTableLookup(state: string)
    ensures StateIcon(state) == Lookup(StateTable, state).GetOr(state)
  {
  }

  /** Different known states get different icons. */
  lemma StateIconsDistinct(a: string, b: string)
    requires HasKey(StateTable, a) && HasKey(StateTable, b) && a != b
    ensures StateIcon(a) != StateIcon(b)
  {
    KnownStates(a);
    KnownStates(b);
    IconGlyph(a);
    IconGlyph(b);
  }

  /**
   Each known state's icon is its colour code, then its glyph (character 5 onwards), then
   the four-character reset code.
   */
  lemma IconGlyph(state: string)
    requires HasKey(StateTable, state)
    ensures |StateIcon(state)| > 9
    ensures StateIcon(state)[..5] == (
      if state in {"Fertig", "Umgesetzt"} then Green
      else if state == "In Entwicklung" then Yellow
      else Cyan)
    ensures StateIcon(state)[|StateIcon(state)| - 4..] == Reset
    ensures state == "Umgesetzt" ==> StateIcon(state)[5..8] == "(\U{2714})"
    ensures StateIcon(state)[5] == (
      if state == "Fertig" then '\U{2714}'
      else if state == "Umgesetzt" then '('
      else if state == "In Entwicklung" then '\U{1F527}'
      else if state == "In Test" then '\U{1F50E}'
      else if state == "Neu" then '\U{1F4AB}'
      else '\U{1F945}')
  {
    KnownStates(state);
  }

  /** The tag that marks an issue as blocked. */
  const BlockedTag: string := "Blockade"

  /** The marker for a blocked issue: a stop sign. */
  const BlockedMarker: string := "\U{1F6D1}"

  /** What is shown when an issue is not blocked: two spaces, to keep columns aligned. */
  const NotBlocked: string := "  "

  /** The blocked marker when the issue has tags and one of them is `Blockade`. */
  function BlockedIcon(tags: Option<seq<string>>): (icon: string)
    ensures icon == BlockedMarker <==> tags.Some? && BlockedTag in tags.value
    ensures icon != BlockedMarker ==> icon == NotBlocked
  {
    if tags.Some? && BlockedTag in tags.value then BlockedMarker else NotBlocked
  }

  /** The start of an issue's line: its state icon, then its blocked icon. */
  function LinePrefix(issue: Issue): string {
    StateIcon(issue.state) + BlockedIcon(issue.tags)
  }

  /** A line ends its icons with the stop sign exactly when the issue is blocked, whatever its state. */
  lemma LinePrefixBlocked(issue: Issue)
    ensures LinePrefix(issue)[|LinePrefix(issue)| - 1] == BlockedMarker[0] <==>
      issue.tags.Some? && BlockedTag in issue.tags.value
  {
  }

  // ----- the issue key -----

  predicate IsDigit(c: char) {
    '0' <= c <= '9'
  }

  predicate AllDigits(s: string) {
    forall k :: 0 <= k < |s| ==> IsDigit(s[k])
  }

  function DigitChar(d: nat): (c: char)
    requires d < 10
    ensures IsDigit(c)
  {
    (('0' as int) + d) as char
  }

  function DigitValue(c: char): (d: nat)
    requires IsDigit(c)
    ensures d < 10
  {
    (c as int) - ('0' as int)
  }

  /** Python's `"%s" % n` for a non-negative integer: its decimal digits, no leading zero. */
  function Decimal(n: nat): (s: string)
    ensures |s| >= 1 && AllDigits(s)
    ensures s[0] == '0' <==> n == 0
    ensures n == 0 ==> s == "0"
    decreases n
  {
    if n < 10 then [DigitChar(n)] else Decimal(n / 10) + [DigitChar(n % 10)]
  }

  /** The value of a non-empty string of decimal digits. */
  function ParseDecimal(s: string): nat
    requires |s| >= 1 && AllDigits(s)
    decreases |s|
  {
    if |s| == 1 then DigitValue(s[0])
    else 10 * ParseDecimal(s[..|s| - 1]) + DigitValue(s[|s| - 1])
  }

  /** Reading back the decimal text of `n` gives `n`. */
  lemma {:induction false} DecimalRoundTrip(n: nat)
    ensures ParseDecimal(Decimal(n)) == n
    decreases n
  {
    if n >= 10 {
      var s := Decimal(n);
      assert s[..|s| - 1] == Decimal(n / 10);
      DecimalRoundTrip(n / 10);
    }
  }

  /** A digit string without a leading zero (other than `"0"` itself) has a value of at least one digit's worth. */
  lemma {:induction false} ParseDecimalLeading(s: string)
    requires |s| >= 1 && AllDigits(s) && s[0] != '0'
    ensures ParseDecimal(s) >= 1
    ensures |s| >= 2 ==> ParseDecimal(s) >= 10
    decreases |s|
  {
    if |s| >= 2 {
      ParseDecimalLeading(s[..|s| - 1]);
    }
  }

  /**
   The decimal text is canonical: the only digit string without a leading zero that
   reads back as `n` is `Decimal(n)`.
   */
  lemma {:induction false} DecimalCanonical(s: string, n: nat)
    requires |s| >= 1 && AllDigits(s) && (|s| == 1 || s[0] != '0')
    requires ParseDecimal(s) == n
    ensures s == Decimal(n)
    decreases |s|
  {
    if |s| == 1 {
      assert DigitChar(DigitValue(s[0])) == s[0];
    } else {
      var init := s[..|s| - 1];
      ParseDecimalLeading(s);
      ParseDecimalLeading(init);
      assert init[0] == s[0];
      DecimalCanonical(init, ParseDecimal(init));
      assert DigitChar(DigitValue(s[|s| - 1])) == s[|s| - 1];
      assert s == init + [s[|s| - 1]];
    }
  }

  /** The key shown for an issue, `"%s-%s" % (projectShortName, numberInProject)`. */
  function IssueKey(project: string, number: nat): string {
    project + "-" + Decimal(number)
  }

  /** The position of the last `c` in `s`. */
  function LastIndexOf(s: string, c: char): (r: Option<nat>)
    ensures r.Some? ==> r.value < |s| && s[r.value] == c
    ensures r.Some? ==> forall k :: r.value < k < |s| ==> s[k] != c
    ensures r.None? ==> forall k :: 0 <= k < |s| ==> s[k] != c
    decreases |s|
  {
    if |s| == 0 then None
    else if s[|s| - 1] == c then Some(|s| - 1)
    else LastIndexOf(s[..|s| - 1], c)
  }

  /**
   Splits a key at its last `-` into project and number; the project may itself contain
   dashes, the number may not.
   */
  function ParseIssueKey(key: string): (r: Option<(string, nat)>)
  {
    match LastIndexOf(key, '-')
    case None => None
    case Some(i) =>
      var digits := key[i + 1..];
      if |digits| >= 1 && AllDigits(digits) then Some((key[..i], ParseDecimal(digits))) else None
  }

  /** The key determines the project and the number: parsing it gives both back. */
  lemma IssueKeyRoundTrip(project: string, number: nat)
    ensures ParseIssueKey(IssueKey(project, number)) == Some((project, number))
  {
    var key := IssueKey(project, number);
    var digits := Decimal(number);
    assert key[|project|] == '-';
    assert forall k :: |project| < k < |key| ==> key[k] == digits[k - |project| - 1];
    assert LastIndexOf(key, '-') == Some(|project|);
    assert key[..|project|] == project;
    assert key[|project| + 1..] == digits;
    DecimalRoundTrip(number);
  }

  /** Different (project, number) pairs never share a key. */
  lemma IssueKeyInjective(p1: string, n1: nat, p2: string, n2: nat)
    requires IssueKey(p1, n1) == IssueKey(p2, n2)
    ensures p1 == p2 && n1 == n2
  {
    IssueKeyRoundTrip(p1, n1);
    IssueKeyRoundTrip(p2, n2);
  }
}
