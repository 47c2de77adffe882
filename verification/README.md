# youtrack-cli `you` — verified model of the query resolver and line rendering

`you` is a small command-line client for a YouTrack issue tracker. It is run as
`you <QUERY|ALIAS>` or `you aliases`. It loads `~/.youtrack.yml` and builds a filter
query. The query comes either from a named alias or from the words typed. Every
`${name}` placeholder from the `variables` section is then substituted into it. The
tool fetches the matching issues and prints one line per issue: a state icon, a blocked
marker, the issue key `PROJECT-NUMBER` and the summary.

This project models the deterministic core of that script in Dafny:

- `options.dfy` (`Options`): `Option`, the stand-in for Python's `None`.
- `text.dfy` (`Text`): the Python string primitives the resolver relies on.
  - `StartsWith`, `Find` (`str.find`) and `ReplaceAll` (`str.replace`, every non-overlapping occurrence, left to right).
  - `Split` and `Join` (`str.split` / `str.join`), which serve as the independent reference for `ReplaceAll`.
- `config.dfy` (`Config`): the already-parsed configuration.
  - A YAML mapping becomes an `OrderedMap`: a sequence of (key, value) pairs with unique keys, in document order, like a Python `dict`.
  - It also holds the `${name}` placeholder tokens and `ConfigVariables` (`get_config_variables`).
- `resolver.dfy` (`Resolver`): the command-line decision.
  - `Outcome` has three cases: `Usage` with exit code 1, `ListAliases` with exit code 0, or `Query`.
  - Alias selection and the substitution fold (`Substitute`).
- `render.dfy` (`Render`): the state-icon table, the blocked marker, the line's two leading icons and the issue key.

Process exit, printing and the network are not performed by the model. The resolver
returns an `Outcome` value instead.

Substitution is sequential. There is one `str.replace` per variable, in config order, so
a later variable's placeholder is expanded inside text an earlier variable inserted. A
single `replace` never re-scans its own inserted text.
`Resolver.LaterTokenRewritesEarlierValue` states this for any two placeholders when the
earlier placeholder's value is the later placeholder. In the other order the inserted
value stays, provided the first placeholder does not contain the second.
`Resolver.SubstituteSinglePass` states the single-pass behaviour of one `replace`.

## Model

| member | source | states |
|---|---|---|
| Config.ConfigVariables | you.py:23-29 | one (`${name}`, value) pair per key of the `variables` section, in document order, with the value unchanged; the empty list when the section is absent |
| Config.TokenPairs | you.py:25-28 | the loop over the keys appends exactly one (placeholder, value) pair per entry, at the same position |
| Config.ConfigVariablesDistinct | you.py:23-29 | the derived placeholders are pairwise distinct, because YAML keys are |
| Config.ConfigVariablesTokens | you.py:27 | every derived placeholder has at least the three delimiter characters and names its own variable |
| Config.Token | you.py:27 | the `"${%s}"` format; its meaning is carried by `Config.TokenRoundTrip`: `TokenName` recovers the name from it and from nothing else |
| Config.TokenRoundTrip | you.py:27 | the `"${%s}"` format is invertible: `t` is the placeholder of `name` exactly when stripping `${`…`}` from `t` gives `name` |
| Config.TokenInjective | you.py:27 | different variable names never share a placeholder |
| Config.Lookup | you.py:96-99 | `None` exactly when no entry carries the key; otherwise the value of an entry with that key |
| Config.LookupFirst | you.py:97-99 | the lookup yields the value of the first entry carrying the key, as `provided_alias[0]` does |
| Config.LookupUnique | you.py:97-99 | with unique keys, looking up the key of entry `i` yields entry `i`'s value |
| Resolver.Decide | you.py:64-103 | usage error (message, exit 1) exactly when there are no arguments; listing (exit 0) exactly when the first argument is `aliases`, listing all alias names in order, or none without an aliases section; otherwise a query with the selected filter |
| Resolver.SelectFilter | you.py:95-103 | a first argument naming an alias selects that alias's template; with no aliases section or no matching name, the filter is all arguments joined by single spaces |
| Resolver.Resolve | you.py:64-107 | usage and listing are decided as above and involve no substitution; a query's filter is the selected filter with the configured variables substituted in document order |
| Resolver.UsageIgnoresConfig | you.py:64-67 | without arguments the outcome is the usage error for every configuration, so it is decided before the configuration matters |
| Resolver.ListingBeatsAlias | you.py:89-99 | `aliases` lists the alias names even when an alias is itself named `aliases` |
| Resolver.AliasSelectsTemplate | you.py:95-99 | naming alias `i` queries exactly its template, and the remaining arguments are ignored |
| Resolver.SingleWordIsFilter | you.py:100-103 | a single argument that is not an alias is the filter itself |
| Resolver.AliasQuery | you.py:95-107 | naming alias `i` queries its template with the variables substituted in document order |
| Resolver.Substitute | you.py:105-107 | the replacement loop; its meaning is carried by `Resolver.SubstituteAppend` (a left fold over the variables, in order) and `Resolver.SubstituteSinglePass` (each step is one `str.replace`) |
| Resolver.SubstituteAppend | you.py:105-107 | substitution is a left fold: substituting with `a + b` equals substituting with `a`, then with `b` |
| Resolver.SubstituteNothing | you.py:105-107 | with no variables the query is unchanged |
| Resolver.SubstituteAbsent | you.py:105-107 | when none of the placeholders occurs in the query, the query is unchanged |
| Resolver.SubstituteWholeToken | you.py:105-107 | a query that is exactly one placeholder becomes that placeholder's value |
| Resolver.SubstituteSinglePass | you.py:107 | substituting one variable into any query equals splitting the query at the placeholder and joining with the value, so text the value inserts is not scanned again |
| Resolver.LaterTokenRewritesEarlierValue | you.py:105-107 | for any two non-empty placeholders, when the earlier placeholder's value is the later placeholder, the later one rewrites it; in the other order it stays, provided the first placeholder does not contain the second |
| Resolver.PlaceholderOrderMatters | you.py:105-107 | on the placeholders `${a}` and `${b}` both orders apply, and the results differ (`x` against `${b}`) |
| Text.Join | you.py:101-103 | `" ".join(sys.argv[1:])`; the body is the definition of `str.join` (nothing for no parts, the part itself for one); `Text.JoinSnoc` states its meaning for any parts |
| Text.JoinSnoc | you.py:101-103 | joining one more part, whatever it contains (spaces included), appends the separator and that part |
| Text.ReplaceAll | you.py:107 | `str.replace`; its meaning is carried by `Text.ReplaceIsSplitJoin`: every leftmost non-overlapping occurrence is replaced and the text between them is kept |
| Text.Find | you.py:107 | the leftmost occurrence: the pattern occurs at the returned index and nowhere before it; `None` exactly when it occurs nowhere |
| Text.ReplaceAbsent | you.py:107 | `replace` leaves a string without an occurrence of the pattern unchanged |
| Text.ReplaceWhole | you.py:107 | a string that is exactly the pattern becomes the replacement, even if the replacement contains the pattern |
| Text.ReplaceIsSplitJoin | you.py:107 | `s.replace(p, v)` equals `v.join(s.split(p))`: the text between leftmost non-overlapping occurrences is kept and each occurrence becomes `v` |
| Text.SplitJoin | you.py:107 | joining the pieces of a split with the separator rebuilds the string |
| Text.SplitPiecesFree | you.py:107 | no piece of a split contains the separator, so every occurrence was replaced |
| Text.ReplaceSelf | you.py:107 | replacing a pattern by itself changes nothing |
| Render.StateIcon | you.py:42-55 | a state is shown as its own text exactly when it is not one of the six known states |
| Render.KnownStates | you.py:43-54 | the icon table covers exactly Fertig, Umgesetzt, In Entwicklung, In Test, Neu and Eingeplant |
| Render.StateIconIsTableLookup | you.py:42-55 | the if-chain equals a lookup in the fixed colour+icon table, falling back to the raw state text |
| Render.IconGlyph | you.py:43-54 | each known state's icon is its colour code (green for Fertig and Umgesetzt, yellow for In Entwicklung, cyan otherwise), then the state's glyph at character 5 (the check mark, `(✔)` for Umgesetzt, wrench, magnifier, sparkles, goal net), and ends with the reset code |
| Render.StateIconsDistinct | you.py:43-54 | different known states get different icons |
| Render.BlockedIcon | you.py:57-61 | the stop sign exactly when tags are present and contain `Blockade`; otherwise exactly two spaces |
| Render.LinePrefix | you.py:120-122 | `state + blocked_icon`; its meaning is carried by `Render.LinePrefixBlocked`: the prefix ends in the stop sign exactly when the issue is blocked |
| Render.LinePrefixBlocked | you.py:120-122 | a line's icon prefix ends in the stop sign exactly when the issue is blocked, whatever its state |
| Render.Decimal | you.py:118 | the number is printed as a non-empty string of decimal digits that starts with `0` only when the number is zero, and is then `0` itself |
| Render.DecimalRoundTrip | you.py:118 | reading the printed digits back gives the number |
| Render.DecimalCanonical | you.py:118 | the printed number is the only digit string without a leading zero that reads back as the number, so the key text is exactly Python's |
| Render.IssueKey | you.py:116-118 | `"%s-%s" % (projectShortName, numberInProject)`; its meaning is carried by `Render.IssueKeyRoundTrip`: splitting at the last dash gives back the project and the number |
| Render.IssueKeyRoundTrip | you.py:116-118 | splitting `project-number` at its last dash recovers the project, even one containing dashes, and the number |
| Render.IssueKeyInjective | you.py:116-118 | different (project, number) pairs never print the same key |

## Left out

- YAML parsing and the config-file check (you.py:70-82). The model takes an already-parsed `Config`. A missing file raises before anything else except the usage check.
- A config document that parses to `None`, or a section written empty (`aliases:` or `variables:` with no entries). The script crashes on those: an empty `variables:` fails at line 25 (called from line 86), before even `you aliases` is handled; an empty `aliases:` fails at line 91 or 97; a `None` document fails at line 78. The model has no such value.
- YAML values that are not strings: numeric keys or values, nested mappings. Python would compare or concatenate them differently, or fail. The model stores strings only.
- The redundant `config is not None` tests at lines 90 and 96. They always hold once line 78 has run.
- The connection and `get_all_issues` (you.py:111, 114). This is the external tracker client; its result order, the page bounds `0, 100` and its errors are outside the model.
- All printing (you.py:66, 92, 109, 122-127): ANSI layout, the spaces `print` inserts, and the trailing tag list. The model covers the strings that are computed: the icons, the line's icon prefix and the key.
- Process exit as an effect. The exit codes are fields of `Outcome` instead.
- Missing issue fields. `issue.get(..., None)` could yield `None`, and a `None` state would crash the concatenation at line 122. The model's `Issue` has plain fields.
- Render.IssueKey: the number is modelled as a natural number printed in decimal. A tracker that delivers it as arbitrary text is not modelled.
- Text.ReplaceAll: Python's empty-pattern case (`InterleaveEmpty`) is modelled, but no property is proved about it. Placeholders always have at least three characters (`Config.ConfigVariablesTokens`), so the resolver never reaches that case.
