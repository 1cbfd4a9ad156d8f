/**
 * The section card: which of a section's fields are shown, how wide each one
 * is on the 12-column grid, and what each shown field is handed (its value,
 * its required flag and its error message). The JSX markup itself is
 * abstracted to "nothing" or the list of rendered fields.
 */
module SectionCard {

  import opened Wrappers
  import opened FormTypes

  /** `visibility[field.id] !== false`: a field without a visibility entry is shown. */
  predicate Shown(visibility: map<FieldId, bool>, id: FieldId)
  {
    Lookup(visibility, id) != Some(false)
  }

  /** `section.fields.filter(...)`: the shown fields, in the section's order. */
  function VisibleFields(fields: seq<Field>, visibility: map<FieldId, bool>): (r: seq<Field>)
    ensures |r| <= |fields|
    ensures forall i :: 0 <= i < |r| ==> Shown(visibility, r[i].id)
  {
    if fields == [] then []
    else if Shown(visibility, fields[0].id) then [fields[0]] + VisibleFields(fields[1..], visibility)
    else VisibleFields(fields[1..], visibility)
  }

  /** A field is kept exactly when it is in the section and its visibility entry is not `false`. */
  lemma {:induction false} VisibleFieldsMembership(fields: seq<Field>, visibility: map<FieldId, bool>, f: Field)
    ensures f in VisibleFields(fields, visibility) <==> f in fields && Shown(visibility, f.id)
  {
    if fields != [] {
      VisibleFieldsMembership(fields[1..], visibility, f);
      assert fields == [fields[0]] + fields[1..];
    }
  }

  /**
   * `r` is the subsequence of `s` taken at the strictly increasing positions
   * `idx`.
   */
  ghost predicate SubsequenceAt<T>(r: seq<T>, s: seq<T>, idx: seq<nat>)
  {
    && |idx| == |r|
    && (forall i :: 0 <= i < |idx| ==> idx[i] < |s| && r[i] == s[idx[i]])
    && (forall i, j :: 0 <= i < j < |idx| ==> idx[i] < idx[j])
  }

  /** Every position moved one to the right. */
  function Shift(idx: seq<nat>): (r: seq<nat>)
  {
    seq(|idx|, i requires 0 <= i < |idx| => idx[i] + 1)
  }

  /** Positions taken in the tail of `s` are, shifted by one, positions in `s` itself. */
  lemma ShiftSubsequence<T>(r: seq<T>, s: seq<T>, idx: seq<nat>)
    requires s != [] && SubsequenceAt(r, s[1..], idx)
    ensures SubsequenceAt(r, s, Shift(idx))
    ensures SubsequenceAt([s[0]] + r, s, [0] + Shift(idx))
    ensures forall j :: 0 < j < |s| ==> (j in Shift(idx) <==> j - 1 in idx)
    ensures 0 !in Shift(idx)
  {
  }

  /**
   * The filter preserves order and drops exactly the hidden fields: the
   * visible list is the section's fields taken at increasing positions, and
   * those positions are exactly the ones whose field is shown.
   */
  lemma {:induction false} VisibleFieldsOrder(fields: seq<Field>, visibility: map<FieldId, bool>)
    returns (idx: seq<nat>)
    ensures SubsequenceAt(VisibleFields(fields, visibility), fields, idx)
    ensures forall j :: 0 <= j < |fields| ==> (j in idx <==> Shown(visibility, fields[j].id))
  {
    if fields == [] {
      idx := [];
    } else {
      var rest := VisibleFieldsOrder(fields[1..], visibility);
      ShiftSubsequence(VisibleFields(fields[1..], visibility), fields, rest);
      assert forall j :: 0 < j < |fields| ==> fields[1..][j - 1] == fields[j];
      idx := if Shown(visibility, fields[0].id) then [0] + Shift(rest) else Shift(rest);
    }
  }

  /** Filtering the visible list again with the same map changes nothing. */
  lemma {:induction false} VisibleFieldsIdempotent(fields: seq<Field>, visibility: map<FieldId, bool>)
    ensures VisibleFields(VisibleFields(fields, visibility), visibility) == VisibleFields(fields, visibility)
  {
    if fields != [] {
      VisibleFieldsIdempotent(fields[1..], visibility);
      var rest := VisibleFields(fields[1..], visibility);
      if Shown(visibility, fields[0].id) {
        assert ([fields[0]] + rest)[1..] == rest;
      }
    }
  }

  /** The visible list is empty exactly when every field of the section is explicitly hidden. */
  lemma {:induction false} VisibleFieldsEmpty(fields: seq<Field>, visibility: map<FieldId, bool>)
    ensures VisibleFields(fields, visibility) == [] <==>
            forall i :: 0 <= i < |fields| ==> fields[i].id in visibility && !visibility[fields[i].id]
  {
    if fields != [] {
      VisibleFieldsEmpty(fields[1..], visibility);
      assert forall i :: 1 <= i < |fields| ==> fields[1..][i - 1] == fields[i];
    }
  }

  /**
   * `gridSpan(field.grid_width)`: widths 3, 4 and 6 keep their own span and
   * every other width, an absent one included, spans the whole row. Every
   * span tiles the 12-column grid.
   */
  function GridSpan(width: Option<real>): (span: nat)
    ensures 0 < span <= 12 && 12 % span == 0
    ensures span != 12 <==> width in {Some(3.0), Some(4.0), Some(6.0)}
    ensures span != 12 ==> width == Some(span as real)
  {
    if width == Some(3.0) then 3
    else if width == Some(4.0) then 4
    else if width == Some(6.0) then 6
    else 12
  }

  /** `errors[field.id]?.message`. */
  function ErrorMessage(errors: map<FieldId, FieldError>, id: FieldId): Option<string>
  {
    if id in errors then errors[id].message else None
  }

  /** What one shown field is rendered with: the props handed to its field control. */
  datatype RenderedField<V> = RenderedField(
    field: Field,
    span: nat,
    value: Option<V>,
    required: Option<bool>,
    error: Option<string>)

  /** The props of the field control for `field`, looked up by the field's own id. */
  function RenderField<V>(field: Field, values: map<FieldId, V>, requiredMap: map<FieldId, bool>,
                          errors: map<FieldId, FieldError>): RenderedField<V>
  {
    RenderedField(field, GridSpan(field.gridWidth), Lookup(values, field.id),
                  Lookup(requiredMap, field.id), ErrorMessage(errors, field.id))
  }

  /**
   * The section card: `None` when no field is shown (the component returns
   * `null`), otherwise the shown fields in order, each with its props.
   */
  function RenderSection<V>(section: Section, values: map<FieldId, V>, visibility: map<FieldId, bool>,
                            requiredMap: map<FieldId, bool>, errors: map<FieldId, FieldError>)
    : (r: Option<seq<RenderedField<V>>>)
    ensures r.None? <==> VisibleFields(section.fields, visibility) == []
    ensures r.Some? ==>
              && |r.value| == |VisibleFields(section.fields, visibility)|
              && forall i :: 0 <= i < |r.value| ==>
                   r.value[i].field == VisibleFields(section.fields, visibility)[i]
  {
    var shown := VisibleFields(section.fields, visibility);
    if |shown| == 0 then None
    else Some(seq(|shown|, i requires 0 <= i < |shown| => RenderField(shown[i], values, requiredMap, errors)))
  }

  /**
   * A section renders nothing exactly when every one of its fields has an
   * explicit `false` visibility entry.
   */
  lemma RenderSectionNothing<V>(section: Section, values: map<FieldId, V>, visibility: map<FieldId, bool>,
                                requiredMap: map<FieldId, bool>, errors: map<FieldId, FieldError>)
    ensures RenderSection(section, values, visibility, requiredMap, errors).None? <==>
            forall i :: 0 <= i < |section.fields| ==>
              section.fields[i].id in visibility && !visibility[section.fields[i].id]
  {
    VisibleFieldsEmpty(section.fields, visibility);
  }

  /**
   * Every rendered field is a shown field of the section and receives exactly
   * the value, required flag and error message stored under its own id, and
   * the span of its own grid width.
   */
  lemma RenderedFieldsOwnProps<V>(section: Section, values: map<FieldId, V>, visibility: map<FieldId, bool>,
                                  requiredMap: map<FieldId, bool>, errors: map<FieldId, FieldError>)
    ensures var r := RenderSection(section, values, visibility, requiredMap, errors);
            r.Some? ==> forall c :: c in r.value ==>
              && c.field in section.fields
              && Shown(visibility, c.field.id)
              && c.span == GridSpan(c.field.gridWidth)
              && c.value == Lookup(values, c.field.id)
              && c.required == Lookup(requiredMap, c.field.id)
              && c.error == ErrorMessage(errors, c.field.id)
  {
    var r := RenderSection(section, values, visibility, requiredMap, errors);
    if r.Some? {
      forall c | c in r.value
        ensures c.field in section.fields
      {
        VisibleFieldsMembership(section.fields, visibility, c.field);
      }
    }
  }
}
