/** Error kinds of the graph and the result of a fallible operation. Error
    texts are reduced to the entity they name. */
module Errors {
  datatype GraphError =
    | UnknownConcept(id: nat)
    | UnknownRelation(id: nat)
    | UnknownConceptType(name: string)
    | UnknownRelationType(name: string)
    | SchemaViolation(relation: string)
    | CardinalityViolation(relation: string, concept: nat)
    | DuplicateConcept(name: string, ctype: string)
    | InvalidProperty(ctype: string)
    | MissingRequiredProperty(ctype: string)
    | DisjointTypeViolation(ctype: string)
    | NotPrepared
    | ImmutableConceptType(was: string, got: string)
    | ConceptIdOutOfRange(id: nat)
    | InvalidNamespace(ctype: string)
    | NamespaceMismatch(ctype: string)
    | NamespaceChangeWithInstances(ctype: string)
    | TypeInUse(name: string)
    | RelationTypeChangeWithInstances(rtype: string)
    | RelationExists(id: nat)
    | ParentCycle(ctype: string)

  datatype Result<+T> = Ok(value: T) | Err(error: GraphError)
}
