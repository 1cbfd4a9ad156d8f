/**
 * The shapes of a form version that the renderer and the section card read.
 * Only the attributes the core consults are kept; a field's type, label,
 * validation rules and conditions are passed through untouched to the field
 * control and are not part of this model.
 */
module FormTypes {

  import opened Wrappers

  type FieldId = string

  /** One field of a section. `gridWidth` is the optional numeric `grid_width`. */
  datatype Field = Field(id: FieldId, gridWidth: Option<real>)

  /**
   * A section of the schema: its fields in display order. Its id, title and
   * description only feed the markup and are not kept.
   */
  datatype Section = Section(fields: seq<Field>)

  /** `schema.sections` may be missing from a fetched form version. */
  datatype Schema = Schema(sections: Option<seq<Section>>)

  datatype SubmissionSettings = SubmissionSettings(submitButtonText: Option<string>)

  datatype Config = Config(submissionSettings: Option<SubmissionSettings>)

  /**
   * A fetched form version: the schema and the configuration are both
   * optional. Its id is only displayed and is not kept.
   */
  datatype FormVersion = FormVersion(schema: Option<Schema>, config: Option<Config>)

  /** What the field-state engine reports: per-field visibility and required flags. */
  datatype FieldState = FieldState(visibility: map<FieldId, bool>, required: map<FieldId, bool>)

  /** A field error as react-hook-form stores it: an optional message. */
  datatype FieldError = FieldError(message: Option<string>)

  /** Reading `record[key]` from a plain JavaScript object: `undefined` when the key is missing. */
  function Lookup<K, V>(m: map<K, V>, k: K): Option<V>
  {
    if k in m then Some(m[k]) else None
  }
}
