/** The value shapes of the application state that the exporter and the store share. */
module AppState {
  import opened Wrappers

  /** `IField`: a target field of the export. */
  datatype Field = Field(id: string, name: string, required: bool)

  /** `ICrosswalkField`: the ordered source nicks of one target field, and whether it is exported for page-level items. */
  datatype CrosswalkField = CrosswalkField(nicks: seq<string>, itemExport: bool)

  /** `ICrosswalkFieldHash`: field id -> entry, for one collection alias. */
  type CrosswalkFieldHash = map<string, CrosswalkField>

  /** `ICrosswalk`: alias -> that alias's field hash. */
  type Crosswalk = map<string, CrosswalkFieldHash>

  /** The soft-error categories the exporter reports (a tag of this model; the source keeps only the text). */
  datatype ErrorKind = RequiredFieldEmpty | ResourceMismatch | MissingFile | CopyFailed

  /** `IExportError`: a soft error, with the exact description text the exporter produces. */
  datatype ExportError = ExportError(kind: ErrorKind, description: string)

  /** The ContentDM server preferences: host name, the port (None while unset) and the SSL flag. */
  datatype CdmServer = CdmServer(hostname: string, port: Option<string>, ssl: bool)

  /** The ids of a field list. */
  function FieldIds(fields: seq<Field>): (ids: set<string>)
    ensures forall f :: f in fields ==> f.id in ids
    ensures forall id :: id in ids ==> exists f :: f in fields && f.id == id
  {
    set f | f in fields :: f.id
  }

  /** Appending a field adds its id. */
  lemma FieldIdsSnoc(fields: seq<Field>, f: Field)
    ensures FieldIds(fields + [f]) == FieldIds(fields) + {f.id}
  {
    assert forall g :: g in fields + [f] <==> g in fields || g == f;
  }
}
