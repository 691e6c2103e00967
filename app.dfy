/**
 * The App component: the inspect-operation handler that resolves the
 * definition under the pointer to an explorer selector, and the component
 * state (query text and explorer visibility) with its two update handlers.
 */
module App {
  import opened Wrappers
  import opened GraphQLAst
  import opened Resolver
  import opened ExplorerKey

  /** What the inspect-operation handler ends with. */
  datatype Inspection =
    | ParseFailure                                    // the parser gave a falsy result
    | NoEnclosingDefinition                           // no definition's location contains the span
    | Reveal(definition: Definition, selector: string) // the selector handed to the DOM lookup

  /**
   * The handler on an already-parsed document (`None` for a falsy parser
   * result) and the offsets of the token under the pointer.
   */
  function InspectOperation(parsed: Option<Document>, span: Span): (r: Inspection)
    ensures r.ParseFailure? <==> parsed.None?
    ensures r.NoEnclosingDefinition? <==>
      parsed.Some? && forall j :: 0 <= j < |parsed.value.definitions| ==> !Encloses(parsed.value.definitions[j], span)
    ensures r.Reveal? ==> parsed.Some? && r.definition in parsed.value.definitions
                          && Encloses(r.definition, span)
    ensures r.Reveal? ==> exists i :: 0 <= i < |parsed.value.definitions| && parsed.value.definitions[i] == r.definition
                                   && forall j :: 0 <= j < i ==> !Encloses(parsed.value.definitions[j], span)
    ensures r.Reveal? ==> r.selector == DefinitionSelector(r.definition)
    ensures r.Reveal? ==> ParseSelector(r.selector) == Some((KindLabel(r.definition), NameLabel(r.definition)))
  {
    match parsed
    case None => ParseFailure
    case Some(doc) =>
      match FindDefinition(doc.definitions, span)
      case None => NoEnclosingDefinition
      case Some(d) =>
        SelectorRoundTrip(d);
        Reveal(d, DefinitionSelector(d))
  }

  /** In a well-formed document, a non-empty span inside a definition reveals that definition's node. */
  lemma InspectContainedSpan(doc: Document, span: Span, i: nat)
    requires Ordered(doc.definitions)
    requires i < |doc.definitions| && Encloses(doc.definitions[i], span)
    requires span.start < span.end
    ensures InspectOperation(Some(doc), span) == Reveal(doc.definitions[i], DefinitionSelector(doc.definitions[i]))
  {
    ContainedSpanResolvesToIt(doc.definitions, span, i);
  }

  const DefaultQuery: string :=
    "# shift-option/alt-click on a query below to jump to it in the explorer\n"
    + "# option/alt-click on a field in the explorer to select all subfields\n"
    + "query GET_PAGES {\n"
    + "  pages {\n"
    + "  \tedges {\n"
    + "  \t\tnode {\n"
    + "  \t\t\ttitle\n"
    + "  \t\t}\n"
    + "  \t}\n"
    + "  }\n"
    + "}\n"

  /** The component's query text and explorer-open flag. */
  class AppState {
    var query: string
    var explorerIsOpen: bool

    constructor ()
      ensures query == DefaultQuery && explorerIsOpen
    {
      query := DefaultQuery;
      explorerIsOpen := true;
    }

    /** `_handleEditQuery`: replaces the query text wholesale. */
    method EditQuery(newQuery: string)
      modifies this
      ensures query == newQuery && explorerIsOpen == old(explorerIsOpen)
    {
      query := newQuery;
    }

    /** `_handleToggleExplorer`: negates the explorer flag. */
    method ToggleExplorer()
      modifies this
      ensures explorerIsOpen == !old(explorerIsOpen) && query == old(query)
    {
      explorerIsOpen := !explorerIsOpen;
    }

    /**
     * `_handleInspectOperation` on the current query text; `parse` stands for
     * the GraphQL parser and `span` for the editor's token offsets.
     */
    method Inspect(parse: string -> Option<Document>, span: Span) returns (r: Inspection)
      ensures r == InspectOperation(parse(query), span)
    {
      r := InspectOperation(parse(query), span);
    }
  }

  /** Toggling the explorer twice restores both fields. */
  method ToggleTwice(app: AppState)
    modifies app
    ensures app.explorerIsOpen == old(app.explorerIsOpen) && app.query == old(app.query)
  {
    app.ToggleExplorer();
    app.ToggleExplorer();
  }

  /**
   * Two operations back to back, `query A{f} query B{g}`: A spans offsets
   * 0 to 10, B spans 11 to 21, and the token `g` under the pointer spans 19
   * to 20.
   */
  const OperationA := Definition(OperationDefinition(Query), Some("A"), Some(Location(0, 10)))
  const OperationB := Definition(OperationDefinition(Query), Some("B"), Some(Location(11, 21)))

  /** The handler reveals B, not A. */
  lemma SecondOfTwoOperations()
    ensures InspectOperation(Some(Document([OperationA, OperationB])), Span(19, 20))
            == Reveal(OperationB, DefinitionSelector(OperationB))
  {
    var defs := [OperationA, OperationB];
    assert Ordered(defs) by {
      forall i, j | 0 <= i < j < |defs| ensures defs[i].loc.value.end <= defs[j].loc.value.start {
        assert i == 0 && j == 1;
      }
    }
    InspectContainedSpan(Document(defs), Span(19, 20), 1);
  }

  /** B's node is looked up under the key `query-B`. */
  lemma SecondOperationSelector()
    ensures DefinitionSelector(OperationB) == ".graphiql-explorer-root #query-B"
  {
  }
}
