/**
 * The part of a parsed GraphQL document that the inspect-operation handler
 * looks at: the top-level definitions, each with its kind, its optional name
 * and its optional source location (character offsets into the query text).
 * The kinds follow the GraphQL specification (October 2021 edition):
 * operations (section 2.3, including the anonymous `{ ... }` shorthand,
 * which is a query) and fragments (section 2.8). Every other top-level
 * definition kind (type-system definitions and extensions) is kept only by
 * its kind tag, because the handler treats them all alike.
 */
module GraphQLAst {
  import opened Wrappers

  /** The `operation` field of an OperationDefinition node. */
  datatype OperationType = Query | Mutation | Subscription

  /** The `kind` field of a top-level definition node. */
  datatype DefinitionKind =
    | OperationDefinition(operation: OperationType)
    | FragmentDefinition
    | OtherDefinition(tag: string)

  /** The `loc` field: `start` is the offset of the first character, `end` the offset after the last. */
  datatype Location = Location(start: nat, end: nat)

  /** A top-level definition; `name` holds the Name node's `value` when there is one. */
  datatype Definition = Definition(kind: DefinitionKind, name: Option<string>, loc: Option<Location>)

  /** The parser's result: the definitions in document order. */
  datatype Document = Document(definitions: seq<Definition>)

  /** The character-offset span of the editor token under the pointer. */
  datatype Span = Span(start: nat, end: nat)
}
