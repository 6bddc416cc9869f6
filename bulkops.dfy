/**
  Constants of the library and the collaborators the core consults but does
  not own: the metadata schema, the `Work` model's attribute names, the
  Rails inflector and the operation's configuration options.
 */
module BulkOps {
  import opened Text

  const SEPARATOR: char := ';'
  /** Spreadsheet row k (1 is the header) is data row k - ROW_OFFSET. */
  const ROW_OFFSET: int := 2
  const RELATIONSHIP_FIELDS: seq<string> := ["parent", "child", "collection", "order"]
  /** The columns `verify_internal_references` reads an object reference from. */
  const RELATIONSHIP_COLUMNS: seq<string> := ["parent", "child", "next"]
  const FILE_FIELDS: seq<string> := ["file", "files", "filename", "filenames"]
  const REFERENCE_IDENTIFIER_FIELDS: seq<string> :=
    ["Reference Identifier", "ref_id", "Reference ID", "Relationship ID", "Relationship Identifier",
     "Reference Identifier Type", "Reference ID Type", "Ref ID Type", "relationship_identifier_type",
     "relationship_id_type"]
  const SPECIAL_COLUMNS: seq<string> :=
    ["parent", "child", "order", "next", "work_type", "collection", "collection_title", "collection_id",
     "visibility", "relationship_identifier_type", "id", "filename", "file"]
  const IGNORED_COLUMNS: seq<string> := ["ignore", "offline_notes"]
  const INGEST_MEDIA_PATH: string := "/dams_ingest"

  /** A spreadsheet row: its (header, cell) pairs in column order. An empty
      CSV cell, which Ruby reads as nil, is the empty string here. */
  type Row = seq<(string, string)>

  /** `row[header]`: the first cell under that header, nil ("") when absent. */
  function Cell(row: Row, header: string): string {
    if |row| == 0 then "" else if row[0].0 == header then row[0].1 else Cell(row[1..], header)
  }

  function Headers(row: Row): (r: seq<string>)
    ensures |r| == |row| && forall i :: 0 <= i < |row| ==> r[i] == row[i].0
  {
    seq(|row|, i requires 0 <= i < |row| => row[i].0)
  }

  /** The external metadata schema and the Rails helpers the code calls. */
  datatype Schema = Schema(
    /** `Work.attribute_names` */
    attributeNames: seq<string>,
    /** `schema.all_field_names`; `schema.get_field(n)` is present iff n is one of these */
    fieldNames: seq<string>,
    /** `schema.controlled_field_names`, in schema order */
    controlled: seq<string>,
    /** the local sub-authority of a field, when one of its vocabularies is local */
    localAuthority: map<string, string>,
    /** `String#titleize` */
    titleize: string -> string,
    /** `underscore.humanize.downcase.gsub(/[-_]/,' ').split(" ")` */
    words: string -> seq<string>,
    /** `Object.const_defined?` */
    classDefined: string -> bool,
    /** the methods a `SolrDocument` responds to */
    solrMethods: set<string>
  )

  predicate IsSchemaField(schema: Schema, name: string) {
    name in schema.fieldNames
  }

  predicate IsControlled(schema: Schema, name: string) {
    IsSchemaField(schema, name) && name in schema.controlled
  }

  /** The options of an operation's configuration file that the core reads. */
  datatype Options = Options(
    ignoreLabels: bool,
    importLabels: bool,
    metadataInheritance: string,
    workType: Option<string>,
    referenceIdentifier: Option<string>,
    visibility: Option<string>,
    filePrefix: Option<string>,
    ignoredHeaders: seq<string>
  )
}
