/**
 The already-parsed configuration document and the placeholder tokens derived from it.

 A YAML mapping arrives in Python as a `dict`: its keys are unique and it remembers the
 order in which they were written. It is modelled as a sequence of (key, value) pairs
 with unique keys.
 */
module Config {
  import opened Options

  /** No key appears twice. */
  predicate UniqueKeys<V>(m: seq<(string, V)>) {
    forall i, j :: 0 <= i < j < |m| ==> m[i].0 != m[j].0
  }

  /** An insertion-ordered mapping from strings, like a Python `dict` loaded from YAML. */
  type OrderedMap<V> = m: seq<(string, V)> | UniqueKeys(m) witness []

  /** The keys of `m` in order (Python's `m.keys()`). */
  function Keys<V>(m: seq<(string, V)>): (ks: seq<string>)
    ensures |ks| == |m|
    ensures forall i :: 0 <= i < |m| ==> ks[i] == m[i].0
  {
    seq(|m|, i requires 0 <= i < |m| => m[i].0)
  }

  /** Python's `key in m`. */
  predicate HasKey<V>(m: seq<(string, V)>, key: string) {
    exists i :: 0 <= i < |m| && m[i].0 == key
  }

  /** Python's `m[key]`, or `None` when the key is absent: the first entry with that key. */
  function Lookup<V>(m: seq<(string, V)>, key: string): (r: Option<V>)
    ensures r.None? <==> !HasKey(m, key)
    ensures r.Some? ==> exists i :: 0 <= i < |m| && m[i] == (key, r.value)
    decreases |m|
  {
    if |m| == 0 then None
    else if m[0].0 == key then Some(m[0].1)
    else
      var r := Lookup(m[1..], key);
      assert HasKey(m, key) ==> HasKey(m[1..], key) by {
        if HasKey(m, key) {
          var i :| 0 <= i < |m| && m[i].0 == key;
          assert m[1..][i - 1].0 == key;
        }
      }
      assert r.Some? ==> exists i :: 0 <= i < |m| && m[i] == (key, r.value) by {
        if r.Some? {
          var i :| 0 <= i < |m[1..]| && m[1..][i] == (key, r.value);
          assert m[i + 1] == (key, r.value);
        }
      }
      r
  }

  /** The lookup returns the value of the first entry carrying the key, whatever follows it. */
  lemma {:induction false} LookupFirst<V>(m: seq<(string, V)>, key: string, i: nat)
    requires i < |m| && m[i].0 == key
    requires forall j :: 0 <= j < i ==> m[j].0 != key
    ensures Lookup(m, key) == Some(m[i].1)
    decreases i
  {
    if i > 0 {
      assert m[0].0 != key;
      assert m[1..][i - 1] == m[i];
      LookupFirst(m[1..], key, i - 1);
    }
  }

  /** With unique keys, the lookup returns the value stored at ANY entry carrying the key. */
  lemma LookupUnique<V>(m: OrderedMap<V>, i: nat)
    requires i < |m|
    ensures Lookup(m, m[i].0) == Some(m[i].1)
  {
    var r := Lookup(m, m[i].0);
    var j :| 0 <= j < |m| && m[j] == (m[i].0, r.value);
    assert j == i;
  }

  /** The `youtrack` section: where and as whom to connect. */
  datatype Connection = Connection(host: string, username: string, password: string)

  /**
   The configuration document. `variables` and `aliases` are optional sections; their
   values are the strings written in the document.
   */
  datatype Config = Config(
    youtrack: Connection,
    variables: Option<OrderedMap<string>>,
    aliases: Option<OrderedMap<string>>)

  /** The placeholder written in a query for the variable `name`: `${name}`. */
  function Token(name: string): string {
    "${" + name + "}"
  }

  /** The variable name inside a placeholder, if `t` has the `${...}` shape. */
  function TokenName(t: string): (r: Option<string>)
    ensures r.Some? <==> |t| >= 3 && t[..2] == "${" && t[|t| - 1] == '}'
  {
    if |t| >= 3 && t[..2] == "${" && t[|t| - 1] == '}' then Some(t[2..|t| - 1]) else None
  }

  /** `Token` and `TokenName` are inverse: a placeholder names exactly one variable. */
  lemma TokenRoundTrip(name: string, t: string)
    ensures TokenName(t) == Some(name) <==> t == Token(name)
  {
    if t == Token(name) {
      assert t[..2] == "${";
      assert t[2..|t| - 1] == name;
    }
    if TokenName(t) == Some(name) {
      assert t == t[..2] + t[2..|t| - 1] + [t[|t| - 1]];
    }
  }

  /** Different names give different placeholders. */
  lemma TokenInjective(a: string, b: string)
    requires Token(a) == Token(b)
    ensures a == b
  {
    TokenRoundTrip(a, Token(a));
    TokenRoundTrip(b, Token(b));
  }

  /**
   The (placeholder, value) pairs of the `variables` section, in document order; none when
   the section is absent.
   */
  function ConfigVariables(variables: Option<OrderedMap<string>>): (vs: seq<(string, string)>)
    ensures variables.None? ==> vs == []
    ensures variables.Some? ==> |vs| == |variables.value|
    ensures variables.Some? ==> forall i :: 0 <= i < |vs| ==>
      vs[i] == (Token(variables.value[i].0), variables.value[i].1)
  {
    match variables
    case None => []
    case Some(m) => TokenPairs(m)
  }

  /** One `(Token(name), value)` pair per entry of `m`, in order. */
  function TokenPairs(m: seq<(string, string)>): (vs: seq<(string, string)>)
    ensures |vs| == |m|
    ensures forall i :: 0 <= i < |m| ==> vs[i] == (Token(m[i].0), m[i].1)
    decreases |m|
  {
    if |m| == 0 then [] else [(Token(m[0].0), m[0].1)] + TokenPairs(m[1..])
  }

  /** The derived placeholders are pairwise distinct, because the variable names are. */
  lemma ConfigVariablesDistinct(variables: Option<OrderedMap<string>>)
    ensures UniqueKeys(ConfigVariables(variables))
  {
    var vs := ConfigVariables(variables);
    forall i, j | 0 <= i < j < |vs| ensures vs[i].0 != vs[j].0 {
      if vs[i].0 == vs[j].0 {
        TokenInjective(variables.value[i].0, variables.value[j].0);
      }
    }
  }

  /** Every derived placeholder is non-empty and names its variable. */
  lemma ConfigVariablesTokens(variables: Option<OrderedMap<string>>, i: nat)
    requires variables.Some? && i < |variables.value|
    ensures |ConfigVariables(variables)[i].0| >= 3
    ensures TokenName(ConfigVariables(variables)[i].0) == Some(variables.value[i].0)
  {
    TokenRoundTrip(variables.value[i].0, ConfigVariables(variables)[i].0);
  }
}
