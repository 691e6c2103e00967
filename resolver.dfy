/**
 * The definition search of the inspect-operation handler: the ordered
 * `Array.find` over the document's top-level definitions that picks the
 * first definition whose location contains the token span under the pointer.
 */
module Resolver {
  import opened Wrappers
  import opened GraphQLAst

  /** The find predicate: a definition without a location never matches. */
  predicate Encloses(d: Definition, span: Span) {
    d.loc.Some? && d.loc.value.start <= span.start && d.loc.value.end >= span.end
  }

  /** Index of the first definition that encloses `span`, in document order. */
  function FirstMatch(defs: seq<Definition>, span: Span): (r: Option<nat>)
    ensures r.Some? ==> r.value < |defs| && Encloses(defs[r.value], span)
    ensures r.Some? ==> forall j :: 0 <= j < r.value ==> !Encloses(defs[j], span)
    ensures r.None? <==> forall j :: 0 <= j < |defs| ==> !Encloses(defs[j], span)
  {
    if |defs| == 0 then None
    else if Encloses(defs[0], span) then Some(0)
    else match FirstMatch(defs[1..], span)
      case None => None
      case Some(i) => Some(i + 1)
  }

  /** `definitions.find(...)`: the first enclosing definition, if any. */
  function FindDefinition(defs: seq<Definition>, span: Span): (r: Option<Definition>)
    ensures r.Some? ==> r.value.loc.Some?
    ensures r.Some? ==> r.value.loc.value.start <= span.start && r.value.loc.value.end >= span.end
    ensures r.Some? ==> exists i :: 0 <= i < |defs| && defs[i] == r.value
                                 && forall j :: 0 <= j < i ==> !Encloses(defs[j], span)
    ensures r.None? <==> forall j :: 0 <= j < |defs| ==> !Encloses(defs[j], span)
  {
    match FirstMatch(defs, span)
    case None => None
    case Some(i) => Some(defs[i])
  }

  /** The definitions that carry a location, in their original order. */
  function WithLocation(defs: seq<Definition>): seq<Definition> {
    if |defs| == 0 then []
    else if defs[0].loc.Some? then [defs[0]] + WithLocation(defs[1..])
    else WithLocation(defs[1..])
  }

  /** One step of the search: the head if it encloses the span, otherwise the search of the tail. */
  lemma FindDefinitionStep(defs: seq<Definition>, span: Span)
    requires |defs| > 0
    ensures FindDefinition(defs, span)
            == if Encloses(defs[0], span) then Some(defs[0]) else FindDefinition(defs[1..], span)
  {
  }

  /** Definitions without a location are invisible to the search: dropping them changes nothing. */
  lemma {:induction false} LocationlessDefinitionsAreSkipped(defs: seq<Definition>, span: Span)
    ensures FindDefinition(WithLocation(defs), span) == FindDefinition(defs, span)
  {
    if |defs| > 0 {
      LocationlessDefinitionsAreSkipped(defs[1..], span);
      FindDefinitionStep(defs, span);
      if defs[0].loc.Some? {
        var rest := WithLocation(defs[1..]);
        assert WithLocation(defs) == [defs[0]] + rest;
        assert ([defs[0]] + rest)[1..] == rest;
        FindDefinitionStep([defs[0]] + rest, span);
      }
    }
  }

  /**
   * The shape the parser gives a document: every definition has a location
   * covering at least one character, and a later definition starts no
   * earlier than an earlier one ends (adjacent definitions may share the
   * boundary offset).
   */
  predicate Ordered(defs: seq<Definition>) {
    (forall i :: 0 <= i < |defs| ==> defs[i].loc.Some? && defs[i].loc.value.start < defs[i].loc.value.end)
    && (forall i, j :: 0 <= i < j < |defs| && defs[i].loc.Some? && defs[j].loc.Some? ==>
          defs[i].loc.value.end <= defs[j].loc.value.start)
  }

  /** A non-empty span inside a definition of an ordered document resolves to exactly that definition. */
  lemma ContainedSpanResolvesToIt(defs: seq<Definition>, span: Span, i: nat)
    requires Ordered(defs)
    requires i < |defs| && Encloses(defs[i], span)
    requires span.start < span.end
    ensures FindDefinition(defs, span) == Some(defs[i])
  {
  }

  /**
   * The first-match tie-break: an empty span on the boundary shared by two
   * adjacent definitions lies in both, and the earlier one is returned.
   */
  lemma BoundaryResolvesToEarlier(defs: seq<Definition>, span: Span, i: nat)
    requires Ordered(defs)
    requires i + 1 < |defs|
    requires defs[i].loc.value.end == defs[i + 1].loc.value.start
    requires span.start == span.end == defs[i].loc.value.end
    ensures Encloses(defs[i + 1], span)
    ensures FindDefinition(defs, span) == Some(defs[i])
  {
  }

  /**
   * A span that falls in the gap before definition `g` (and after definition
   * `g - 1`) of an ordered document, including before the first and past the
   * last definition, resolves to nothing.
   */
  lemma GapResolvesToNothing(defs: seq<Definition>, span: Span, g: nat)
    requires Ordered(defs)
    requires g <= |defs|
    requires g > 0 ==> defs[g - 1].loc.value.end < span.end
    requires g < |defs| ==> span.start < defs[g].loc.value.start
    ensures FindDefinition(defs, span) == None
  {
    forall j | 0 <= j < |defs| ensures !Encloses(defs[j], span) {
      if j < g - 1 {
        assert defs[j].loc.value.end <= defs[g - 1].loc.value.start;
      } else if g < j {
        assert defs[g].loc.value.end <= defs[j].loc.value.start;
      }
    }
  }
}
