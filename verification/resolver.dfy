/**
 Turning the command line into what the script does: print the usage text and fail,
 list the configured aliases, or query with a filter built from an alias or the
 arguments, after placeholder substitution.
 */
module Resolver {
  import opened Options
  import opened Text
  import opened Config

  /** The message printed when no argument is given. */
  const UsageMessage: string := "Usage: you <QUERY/ALIAS>"

  /** The argument that switches to alias listing. */
  const ListCommand: string := "aliases"

  /** What a run of the script decides to do, before any network access. */
  datatype Outcome =
    | Usage(message: string, exitCode: int)      // print the message, exit with the code
    | ListAliases(names: seq<string>, exitCode: int)  // print one name per line, exit
    | Query(filter: string)                      // search the tracker with this filter

  /**
   The filter before substitution when the first argument is not the listing command:
   the alias template when the first argument names an alias, otherwise all arguments
   joined by single spaces.
   */
  function SelectFilter(args: seq<string>, aliases: Option<OrderedMap<string>>): (q: string)
    requires |args| > 0
    ensures aliases.Some? && HasKey(aliases.value, args[0]) ==>
      exists i :: 0 <= i < |aliases.value| && aliases.value[i] == (args[0], q)
    ensures (aliases.None? || !HasKey(aliases.value, args[0])) ==> q == Join(args, " ")
  {
    match aliases
    case None => Join(args, " ")
    case Some(m) =>
      match Lookup(m, args[0])
      case Some(template) => template
      case None => Join(args, " ")
  }

  /**
   Decides the outcome from the arguments after the program name (`sys.argv[1:]`) and the
   configuration, before substitution. The argument count is checked first, so the usage
   outcome does not depend on the configuration; the listing command is checked before
   alias lookup, so it wins even over an alias of the same name.
   */
  function Decide(args: seq<string>, config: Config): (o: Outcome)
    ensures |args| == 0 <==> o.Usage?
    ensures o.Usage? ==> o.message == UsageMessage && o.exitCode == 1
    ensures o.ListAliases? <==> |args| > 0 && args[0] == ListCommand
    ensures o.ListAliases? ==> o.exitCode == 0
    ensures o.ListAliases? && config.aliases.None? ==> o.names == []
    ensures o.ListAliases? && config.aliases.Some? ==>
      |o.names| == |config.aliases.value| &&
      forall i :: 0 <= i < |o.names| ==> o.names[i] == config.aliases.value[i].0
    ensures o.Query? ==> o.filter == SelectFilter(args, config.aliases)
  {
    if |args| == 0 then Usage(UsageMessage, 1)
    else if args[0] == ListCommand then ListAliases(Keys(config.aliases.GetOr([])), 0)
    else Query(SelectFilter(args, config.aliases))
  }

  /**
   Applies the placeholder substitutions in order: each `(token, value)` pair replaces
   every occurrence of `token` in the text produced by the previous pairs.
   */
  function Substitute(query: string, vars: seq<(string, string)>): string
    decreases |vars|
  {
    if |vars| == 0 then query
    else Substitute(ReplaceAll(query, vars[0].0, vars[0].1), vars[1..])
  }

  /**
   The full resolution: decide, then substitute the configured variables, in document
   order, into the selected filter. Usage and listing outcomes involve no substitution.
   */
  function Resolve(args: seq<string>, config: Config): (o: Outcome)
    ensures o.Usage? <==> |args| == 0
    ensures o.ListAliases? <==> |args| > 0 && args[0] == ListCommand
    ensures !o.Query? ==> o == Decide(args, config)
    ensures o.Query? ==>
      o.filter == Substitute(SelectFilter(args, config.aliases), ConfigVariables(config.variables))
  {
    match Decide(args, config)
    case Query(filter) => Query(Substitute(filter, ConfigVariables(config.variables)))
    case other => other
  }

  // ----- properties of the resolution -----

  /** With no argument the outcome is the usage error, whatever the configuration holds. */
  lemma UsageIgnoresConfig(c1: Config, c2: Config)
    ensures Resolve([], c1) == Resolve([], c2) == Usage(UsageMessage, 1)
  {
  }

  /** `aliases` lists the alias names even when an alias is itself called `aliases`. */
  lemma ListingBeatsAlias(args: seq<string>, config: Config)
    requires |args| > 0 && args[0] == ListCommand
    requires config.aliases.Some? && HasKey(config.aliases.value, ListCommand)
    ensures Resolve(args, config) == ListAliases(Keys(config.aliases.value), 0)
  {
  }

  /**
   Naming an alias selects exactly its template (before substitution); the remaining
   arguments are ignored.
   */
  lemma AliasSelectsTemplate(args: seq<string>, config: Config, i: nat)
    requires config.aliases.Some? && i < |config.aliases.value|
    requires |args| > 0 && args[0] == config.aliases.value[i].0 && args[0] != ListCommand
    ensures Decide(args, config) == Query(config.aliases.value[i].1)
  {
    LookupUnique(config.aliases.value, i);
  }

  /** Without a matching alias, a single argument is the filter itself. */
  lemma SingleWordIsFilter(word: string, config: Config)
    requires word != ListCommand
    requires config.aliases.None? || !HasKey(config.aliases.value, word)
    ensures Decide([word], config) == Query(word)
  {
  }

  // ----- properties of the substitution -----

  /** Substituting with `a + b` is substituting with `a`, then with `b`: a left fold. */
  lemma {:induction false} SubstituteAppend(query: string, a: seq<(string, string)>, b: seq<(string, string)>)
    ensures Substitute(query, a + b) == Substitute(Substitute(query, a), b)
    decreases |a|
  {
    if |a| == 0 {
      assert a + b == b;
    } else {
      assert (a + b)[1..] == a[1..] + b;
      SubstituteAppend(ReplaceAll(query, a[0].0, a[0].1), a[1..], b);
    }
  }

  /** No placeholder at all: the query is kept as it is. */
  lemma SubstituteNothing(query: string)
    ensures Substitute(query, []) == query
  {
  }

  /**
   When none of the (non-empty) placeholders occurs in the query, the query comes back
   unchanged.
   */
  lemma {:induction false} SubstituteAbsent(query: string, vars: seq<(string, string)>)
    requires forall k :: 0 <= k < |vars| ==> |vars[k].0| > 0 && !Contains(query, vars[k].0)
    ensures Substitute(query, vars) == query
    decreases |vars|
  {
    if |vars| > 0 {
      ReplaceAbsent(query, vars[0].0, vars[0].1);
      SubstituteAbsent(query, vars[1..]);
    }
  }

  /** A query that is exactly a placeholder becomes that placeholder's value. */
  lemma SubstituteWholeToken(token: string, value: string)
    requires |token| > 0
    ensures Substitute(token, [(token, value)]) == value
  {
    ReplaceWhole(token, value);
  }

  /**
   One pass per placeholder: a single substitution keeps the text between the leftmost
   non-overlapping occurrences and puts the value in place of each of them, so text the
   value brings in is never scanned for the placeholder again.
   */
  lemma SubstituteSinglePass(query: string, token: string, value: string)
    requires |token| > 0
    ensures Substitute(query, [(token, value)]) == Join(Split(query, token), value)
  {
    ReplaceIsSplitJoin(query, token, value);
  }

  /**
   The substitutions run in sequence, so a value inserted for an earlier placeholder is
   rewritten by a later one; in the other order the later value is left as inserted,
   provided the first placeholder does not itself contain the second.
   */
  lemma LaterTokenRewritesEarlierValue(t1: string, t2: string, v: string)
    requires |t1| > 0 && |t2| > 0
    ensures Substitute(t1, [(t1, t2), (t2, v)]) == v
    ensures !Contains(t1, t2) ==> Substitute(t1, [(t2, v), (t1, t2)]) == t2
  {
    SubstituteAppend(t1, [(t1, t2)], [(t2, v)]);
    SubstituteWholeToken(t1, t2);
    SubstituteWholeToken(t2, v);
    if !Contains(t1, t2) {
      SubstituteAppend(t1, [(t2, v)], [(t1, t2)]);
      SubstituteAbsent(t1, [(t2, v)]);
    }
  }

  /** The two orders on a pair of actual placeholders: `${b}` does not occur in `${a}`. */
  lemma PlaceholderOrderMatters()
    ensures Substitute(Token("a"), [(Token("a"), Token("b")), (Token("b"), "x")]) == "x"
    ensures Substitute(Token("a"), [(Token("b"), "x"), (Token("a"), Token("b"))]) == Token("b")
  {
    assert !Contains(Token("a"), Token("b")) by {
      forall i: nat | i <= |Token("a")| ensures !OccursAt(Token("a"), Token("b"), i) {
        StartsWithIsPrefix(Token("a")[i..], Token("b"));
      }
    }
    LaterTokenRewritesEarlierValue(Token("a"), Token("b"), "x");
  }

  /**
   Naming an alias queries its template with the configured variables substituted in
   document order.
   */
  lemma AliasQuery(args: seq<string>, config: Config, i: nat)
    requires config.aliases.Some? && i < |config.aliases.value|
    requires |args| > 0 && args[0] == config.aliases.value[i].0 && args[0] != ListCommand
    ensures Resolve(args, config) ==
      Query(Substitute(config.aliases.value[i].1, ConfigVariables(config.variables)))
  {
    AliasSelectsTemplate(args, config, i);
  }
}
