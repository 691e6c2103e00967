# wp-graphiql: the inspect-operation resolver, modelled in Dafny

This project models the core of the App component of wp-graphiql, a GraphiQL
editor with a schema explorer for WPGraphQL. On Shift-Alt-click in the
query editor, the inspect-operation handler finds the top-level GraphQL
definition (an operation, section 2.3 of the GraphQL specification, October
2021 edition, or a fragment, section 2.8) whose source location contains
the token under the pointer. It labels that definition with a kind
(`query`, `mutation`, `subscription`, `fragment` or `unknown`) and a name
(the definition's name or `unknown`). It then builds the selector
`.graphiql-explorer-root #<kind>-<name>` for the explorer node to scroll to.
Beside the handler sits the component state: the query text and the
explorer-open flag, with the edit and toggle handlers.

Files:
- `ast.dfy` (module `GraphQLAst`): the parser output the handler reads. This covers the definition kinds, optional names, optional locations and the token span.
- `resolver.dfy` (module `Resolver`): the ordered first-match search and its properties on well-formed documents.
- `explorer_key.dfy` (module `ExplorerKey`): the kind and name labels, the key and the selector. It also holds the reading of the key and selector back into labels, used to prove that the format loses nothing.
- `app.dfy` (module `App`): the handler's outcome, the `AppState` class, and a worked two-operation scenario.
- `wrappers.dfy` (module `Wrappers`): `Option`.

The parser's result is an input, `Option<Document>`. `None` stands for the
falsy result that the handler reports as "Couldn't parse query document".
The editor's token offsets are an input `Span`. The handler's outcome is
`ParseFailure`, `NoEnclosingDefinition` or `Reveal(definition, selector)`.
The first two are the handler's two `return null` paths.

## Model

| member | source | states |
|---|---|---|
| `Resolver.Encloses` | assets/app/src/App.js:90-96 | the `find` predicate: a definition matches only when it has a location whose start is at or before the span's start and whose end is at or after the span's end |
| `Resolver.FirstMatch` | assets/app/src/App.js:89-97 | the index returned is in range and its definition has a location containing the span; no earlier definition does; no index is returned exactly when no definition contains the span |
| `Resolver.FindDefinition` | assets/app/src/App.js:89-97 | a returned definition has a location, that location contains the span (start <= span.start, end >= span.end), and it occurs at a position before which no definition contains the span; nothing is returned exactly when no definition contains the span |
| `Resolver.FindDefinitionStep` | assets/app/src/App.js:89-97 | the search returns the first definition if it encloses the span and otherwise searches the rest, in document order |
| `Resolver.LocationlessDefinitionsAreSkipped` | assets/app/src/App.js:90-93 | removing every definition without a location never changes the search result |
| `Resolver.ContainedSpanResolvesToIt` | assets/app/src/App.js:89-97 | in a document whose definitions have ordered, non-overlapping locations, a non-empty span inside definition i finds definition i |
| `Resolver.BoundaryResolvesToEarlier` | assets/app/src/App.js:89-97 | an empty span on the offset shared by two adjacent definitions lies in both, and the earlier one is found (the first-match tie-break) |
| `Resolver.GapResolvesToNothing` | assets/app/src/App.js:89-104 | in an ordered document, a span between two definitions, before the first one or past the last one finds nothing |
| `ExplorerKey.OperationLabel` | assets/app/src/App.js:106-108 | an operation's `operation` value is one of the kind labels and is neither `fragment` nor `unknown` |
| `ExplorerKey.KindLabel` | assets/app/src/App.js:106-111 | the kind label is total and lies in {query, mutation, subscription, fragment, unknown}, and it contains no '-'; an operation gives its operation type; the label is `fragment` exactly for fragments and `unknown` exactly for other definition kinds |
| `ExplorerKey.NameLabel` | assets/app/src/App.js:113-118 | a named operation or fragment gives its name; an unnamed definition or a definition of any other kind gives `unknown` |
| `ExplorerKey.Key` | assets/app/src/App.js:120 | the key is the kind label, a '-' and the name label |
| `ExplorerKey.Selector` | assets/app/src/App.js:120 | the selector is `.graphiql-explorer-root #` followed by the key |
| `ExplorerKey.DefinitionSelector` | assets/app/src/App.js:106-120 | the selector of a definition is built from its kind label and name label only |
| `ExplorerKey.KeyRoundTrip` | assets/app/src/App.js:120 | a key `<kind>-<name>` whose kind has no '-' splits back into exactly that kind and name |
| `ExplorerKey.SelectorRoundTrip` | assets/app/src/App.js:106-120 | the selector built for a definition reads back as its kind label and name label |
| `ExplorerKey.SameSelectorIffSameLabels` | assets/app/src/App.js:106-120 | two definitions get the same selector if and only if their kind labels and name labels are equal |
| `ExplorerKey.AnonymousQuerySelector` | assets/app/src/App.js:106-120 | an unnamed query (the `{ ... }` shorthand) gets the selector for key `query-unknown` |
| `ExplorerKey.OtherDefinitionSelector` | assets/app/src/App.js:106-120 | any definition that is neither an operation nor a fragment gets the key `unknown-unknown`, whatever its name |
| `App.InspectOperation` | assets/app/src/App.js:71-124 | a falsy parse result, and only that, gives ParseFailure; NoEnclosingDefinition comes exactly when the document parsed and no definition contains the span; a revealed definition is the first of the document's definitions that contains the span (no earlier one does), its selector is the definition's selector, and that selector reads back as its kind and name labels |
| `App.InspectContainedSpan` | assets/app/src/App.js:71-124 | in an ordered document, a non-empty span inside definition i reveals definition i under its selector |
| `App.AppState.constructor` | assets/app/src/App.js:38-55 | the state starts with the default GET_PAGES query and the explorer open |
| `App.AppState.EditQuery` | assets/app/src/App.js:126 | the query text is replaced wholesale and the explorer flag is unchanged |
| `App.AppState.ToggleExplorer` | assets/app/src/App.js:128-130 | the explorer flag is negated and the query text is unchanged |
| `App.ToggleTwice` | assets/app/src/App.js:128-130 | toggling the explorer twice restores both fields |
| `App.SecondOfTwoOperations` | assets/app/src/App.js:89-120 | for `query A{f} query B{g}` with the pointer on `g`, B is revealed, not A |
| `App.SecondOperationSelector` | assets/app/src/App.js:106-120 | definition B of that scenario is looked up under `.graphiql-explorer-root #query-B` |

## Left out

- `graphQLFetcher` (App.js:14-36): the HTTP call to the WPGraphQL endpoint with the nonce. This is network I/O.
- The introspection effect (App.js:57-69) and the `schema` state it sets: an asynchronous fetch, `buildClientSchema` and the CodeMirror key-binding registration, all library calls. The effect has no dependency list, so it re-runs after every render; that is scheduling behaviour, not logic.
- `parse` (App.js:72): the graphql-js parser is not part of this model. Its result is an input. graphql-js throws on a syntax error rather than returning a falsy value. The model keeps only the falsy-result branch that the handler itself has. `query || ""` is the identity on the model's `string` query, since it cannot be null.
- `getTokenAt` / `indexFromPos` (App.js:79-85): CodeMirror internals. The resulting offsets are the `Span` input.
- `document.querySelector` / `scrollIntoView` (App.js:122-123): DOM side effects. The model stops at the selector string.
- The `console.log` / `console.error` diagnostics (App.js:75, 91, 100-102): logging only.
- `App.AppState.Inspect` reads the latest `query`. In the component, the handler is registered on the editor inside the introspection fetch's `.then` (App.js:60-65), so the registered closure parses the `query` of the render that started that fetch (App.js:72). After an edit it keeps parsing the older text until a later fetch resolves, and for good if that fetch fails, while the token offsets come from the editor's current text (App.js:79-85). The model does not capture this stale closure.
- JSX rendering, the toolbar buttons and the `onRunOperation` pass-through (App.js:132-172): UI wiring with no logic.
- Parser well-formedness (`Resolver.Ordered`): the property assumed by the non-overlap lemmas is a property of the parser's output. The model states it as a hypothesis and does not derive it from GraphQL text.
