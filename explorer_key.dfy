/**
 * The labels, the explorer key `<kind>-<name>` and the CSS selector that the
 * inspect-operation handler builds for a resolved definition. The explorer
 * tags each operation and fragment node with that key, so the key is a wire
 * format shared by the two views; ParseKey and ParseSelector are the reading
 * of that format, used here to prove that nothing is lost in writing it.
 */
module ExplorerKey {
  import opened Wrappers
  import opened GraphQLAst

  const Unknown: string := "unknown"
  const Fragment: string := "fragment"
  const SelectorPrefix: string := ".graphiql-explorer-root #"

  /** The kind labels a key can start with. */
  const KindLabels: set<string> := {"query", "mutation", "subscription", Fragment, Unknown}

  /** The string graphql-js stores in an operation's `operation` field. */
  function OperationLabel(op: OperationType): (r: string)
    ensures r in KindLabels && r != Fragment && r != Unknown
  {
    match op
    case Query => "query"
    case Mutation => "mutation"
    case Subscription => "subscription"
  }

  /** `operationKind`: total over every definition kind. */
  function KindLabel(d: Definition): (r: string)
    ensures r in KindLabels && '-' !in r
    ensures d.kind.OperationDefinition? ==> r == OperationLabel(d.kind.operation)
    ensures r == Fragment <==> d.kind.FragmentDefinition?
    ensures r == Unknown <==> d.kind.OtherDefinition?
  {
    match d.kind
    case OperationDefinition(op) => OperationLabel(op)
    case FragmentDefinition => Fragment
    case OtherDefinition(_) => Unknown
  }

  /** `operationName`: the name of a named operation or fragment, otherwise "unknown". */
  function NameLabel(d: Definition): (r: string)
    ensures !d.kind.OtherDefinition? && d.name.Some? ==> r == d.name.value
    ensures d.kind.OtherDefinition? || d.name.None? ==> r == Unknown
  {
    if d.kind.OperationDefinition? && d.name.Some? then d.name.value
    else if d.kind.FragmentDefinition? && d.name.Some? then d.name.value
    else Unknown
  }

  function Key(kind: string, name: string): string {
    kind + "-" + name
  }

  function Selector(key: string): string {
    SelectorPrefix + key
  }

  /** The selector the handler looks up for a resolved definition. */
  function DefinitionSelector(d: Definition): string {
    Selector(Key(KindLabel(d), NameLabel(d)))
  }

  /** Position of the first '-' in `s`. */
  function FirstDash(s: string): (r: Option<nat>)
    ensures r.Some? ==> r.value < |s| && s[r.value] == '-'
    ensures r.Some? ==> forall j :: 0 <= j < r.value ==> s[j] != '-'
    ensures r.None? <==> '-' !in s
  {
    if |s| == 0 then None
    else if s[0] == '-' then Some(0)
    else match FirstDash(s[1..])
      case None => None
      case Some(i) => Some(i + 1)
  }

  /** Splits a key at its first '-' into kind and name. */
  function ParseKey(key: string): Option<(string, string)> {
    match FirstDash(key)
    case None => None
    case Some(i) => Some((key[..i], key[i + 1..]))
  }

  /** Strips the selector prefix and splits the key. */
  function ParseSelector(selector: string): Option<(string, string)> {
    if |SelectorPrefix| <= |selector| && selector[..|SelectorPrefix|] == SelectorPrefix
    then ParseKey(selector[|SelectorPrefix|..])
    else None
  }

  /** A kind label has no '-', so the key splits back into the kind and the name it was built from. */
  lemma KeyRoundTrip(kind: string, name: string)
    requires '-' !in kind
    ensures ParseKey(Key(kind, name)) == Some((kind, name))
  {
    var key := Key(kind, name);
    assert key[|kind|] == '-';
    var i := FirstDash(key);
    assert i == Some(|kind|) by {
      forall j | 0 <= j < |kind| ensures key[j] != '-' {
        assert key[j] == kind[j];
      }
    }
    assert key[..|kind|] == kind;
    assert key[|kind| + 1..] == name;
  }

  /** The selector of a definition reads back as its kind and name labels. */
  lemma SelectorRoundTrip(d: Definition)
    ensures ParseSelector(DefinitionSelector(d)) == Some((KindLabel(d), NameLabel(d)))
  {
    var key := Key(KindLabel(d), NameLabel(d));
    var sel := Selector(key);
    assert sel[..|SelectorPrefix|] == SelectorPrefix;
    assert sel[|SelectorPrefix|..] == key;
    KeyRoundTrip(KindLabel(d), NameLabel(d));
  }

  /**
   * The selector depends on the two labels and on nothing else: two
   * definitions get the same selector exactly when their kind and name
   * labels agree (so a fragment and an operation that share a name do not).
   */
  lemma SameSelectorIffSameLabels(d1: Definition, d2: Definition)
    ensures DefinitionSelector(d1) == DefinitionSelector(d2)
        <==> KindLabel(d1) == KindLabel(d2) && NameLabel(d1) == NameLabel(d2)
  {
    SelectorRoundTrip(d1);
    SelectorRoundTrip(d2);
  }

  /** The anonymous shorthand query `{ ... }` gets the key `query-unknown`. */
  lemma AnonymousQuerySelector(d: Definition)
    requires d.kind == OperationDefinition(Query) && d.name.None?
    ensures DefinitionSelector(d) == ".graphiql-explorer-root #query-unknown"
  {
  }

  /** Every definition kind outside operations and fragments gets `unknown-unknown`, whatever its name. */
  lemma OtherDefinitionSelector(d: Definition)
    requires d.kind.OtherDefinition?
    ensures DefinitionSelector(d) == ".graphiql-explorer-root #unknown-unknown"
  {
  }
}
