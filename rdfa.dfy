/**
 * What the host editor's RDFa layer hands to the plugin: blocks of annotated
 * text with their chain of triples, and the semantic nodes behind a region.
 */
module Rdfa {
  import opened Wrappers

  const XmlSchemaBase: string := "http://www.w3.org/2001/XMLSchema#"
  const XsdDate: string := "http://www.w3.org/2001/XMLSchema#date"
  const XsdDateTime: string := "http://www.w3.org/2001/XMLSchema#dateTime"
  const XsdAlias: string := "xsd:"

  /** Identifier of a detection event in the hints registry. */
  type HrId = string

  /** A `[start, end]` offset pair in the live document. */
  datatype Region = Region(start: int, end: int)

  /** One statement of a block's context; `datatype` is absent on untyped literals and resources. */
  datatype Triple = Triple(dataType: Option<string>, objectValue: string, content: Option<string>)

  /** An RDFa block: its context (the chain of triples), its region and its text (possibly absent). */
  datatype Block = Block(context: seq<Triple>, region: Region, text: Option<string>)

  /** A node of the editor's DOM, known only by its identity. */
  type DomRef = nat

  datatype RdfaAttributes = RdfaAttributes(dataType: Option<string>)

  /** A rich node; `rdfaAttributes` is absent on nodes without RDFa markup. */
  datatype SemanticNode = SemanticNode(rdfaAttributes: Option<RdfaAttributes>, domNode: DomRef)

  /** One of the contexts `editor.getContexts` returns for a region. */
  datatype Snippet = Snippet(semanticNode: SemanticNode)
}
