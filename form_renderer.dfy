/**
 * The form renderer: the defaults it applies to a fetched form version, the
 * wiring of each section card to the current field state, and the submit
 * handler. The field-state engine, the validator and the submission mutation
 * are collaborators whose code is not part of this model: the validator is a
 * function parameter, the field-state results are inputs, and each call of
 * `mutation.mutate` is recorded in the controller's `submissions` log.
 */
module FormRenderer {

  import opened Wrappers
  import opened FormTypes
  import SectionCard

  /** `data?.schema?.sections ?? []`: the schema's sections, or none when any link is missing. */
  function SectionsOf(data: Option<FormVersion>): (sections: seq<Section>)
    ensures data.Some? && data.value.schema.Some? && data.value.schema.value.sections.Some? ==>
              sections == data.value.schema.value.sections.value
    ensures data.None? || data.value.schema.None? || data.value.schema.value.sections.None? ==>
              sections == []
  {
    match data
    case Some(FormVersion(Some(Schema(Some(s))), _)) => s
    case _ => []
  }

  /**
   * `data?.config?.submission_settings?.submit_button_text ?? "Enviar"`. Only an
   * absent text falls back to the default: `??` keeps a configured empty string.
   */
  function SubmitButtonText(data: FormVersion): (text: string)
    ensures data.config.Some? && data.config.value.submissionSettings.Some?
              && data.config.value.submissionSettings.value.submitButtonText.Some? ==>
              text == data.config.value.submissionSettings.value.submitButtonText.value
    ensures data.config.None? || data.config.value.submissionSettings.None?
              || data.config.value.submissionSettings.value.submitButtonText.None? ==>
              text == "Enviar"
  {
    match data.config
    case Some(Config(Some(SubmissionSettings(Some(t))))) => t
    case _ => "Enviar"
  }

  /**
   * The cards of the form: one per section, each fed the watched values and
   * the visibility and required maps of the field state computed from them.
   */
  function RenderSections<V>(sections: seq<Section>, formValues: map<FieldId, V>, current: FieldState,
                             errors: map<FieldId, FieldError>)
    : (cards: seq<Option<seq<SectionCard.RenderedField<V>>>>)
    ensures |cards| == |sections|
  {
    seq(|sections|, i requires 0 <= i < |sections| =>
      SectionCard.RenderSection(sections[i], formValues, current.visibility, current.required, errors))
  }

  /**
   * A card follows the current field state: it is empty exactly when every
   * field of its section is explicitly hidden in the current visibility map;
   * otherwise it shows, in order, exactly the section's fields that map does
   * not hide, so every such field is on the card, and each field it shows is
   * given the watched value, the current required flag and the error stored
   * under its own id.
   */
  ghost predicate CardFollows<V>(section: Section, card: Option<seq<SectionCard.RenderedField<V>>>,
                                 formValues: map<FieldId, V>, current: FieldState, errors: map<FieldId, FieldError>)
  {
    var shown := SectionCard.VisibleFields(section.fields, current.visibility);
    && (card.None? <==>
          forall j :: 0 <= j < |section.fields| ==>
            section.fields[j].id in current.visibility && !current.visibility[section.fields[j].id])
    && (card.Some? ==>
          && |card.value| == |shown|
          && (forall k :: 0 <= k < |card.value| ==> card.value[k].field == shown[k]))
    && (card.Some? ==> forall f :: f in section.fields && SectionCard.Shown(current.visibility, f.id) ==>
          exists c :: c in card.value && c.field == f)
    && (card.Some? ==> forall c :: c in card.value ==>
          && c.field in section.fields
          && SectionCard.Shown(current.visibility, c.field.id)
          && c.value == Lookup(formValues, c.field.id)
          && c.required == Lookup(current.required, c.field.id)
          && c.error == SectionCard.ErrorMessage(errors, c.field.id))
  }

  /** What the form displays follows the current field state, section by section. */
  lemma RenderSectionsFollowCurrentState<V>(sections: seq<Section>, formValues: map<FieldId, V>,
                                            current: FieldState, errors: map<FieldId, FieldError>)
    ensures var cards := RenderSections(sections, formValues, current, errors);
            forall i :: 0 <= i < |cards| ==> CardFollows(sections[i], cards[i], formValues, current, errors)
  {
    var cards := RenderSections(sections, formValues, current, errors);
    forall i | 0 <= i < |cards|
      ensures CardFollows(sections[i], cards[i], formValues, current, errors)
    {
      var section := sections[i];
      SectionCard.RenderSectionNothing(section, formValues, current.visibility, current.required, errors);
      SectionCard.RenderedFieldsOwnProps(section, formValues, current.visibility, current.required, errors);
      var shown := SectionCard.VisibleFields(section.fields, current.visibility);
      if cards[i].Some? {
        forall f | f in section.fields && SectionCard.Shown(current.visibility, f.id)
          ensures exists c :: c in cards[i].value && c.field == f
        {
          SectionCard.VisibleFieldsMembership(section.fields, current.visibility, f);
          var k :| 0 <= k < |shown| && shown[k] == f;
          assert cards[i].value[k] in cards[i].value;
        }
      }
    }
  }

  /** The submitted payload: a visible field's value, or `undefined` when the form data lacks it. */
  type Payload<V> = map<FieldId, Option<V>>

  /** The entries `Object.entries` yields for the validator's error object. */
  type ErrorEntries = seq<(FieldId, string)>

  /** The set of keys a sequence of field ids holds. */
  function Elements(ids: seq<FieldId>): set<FieldId>
  {
    set k | k in ids
  }

  /**
   * The projection of the submitted values onto a set of field ids: every key
   * of the set is present, with the submitted value or `undefined`, and no
   * other key is. A visible key with no submitted value is stored as
   * `undefined` (`None`), not as `null`: the handler copies `formData[key]`
   * as it reads it.
   */
  function Project<V>(formData: map<FieldId, V>, keys: set<FieldId>): (p: Payload<V>)
    ensures p.Keys == keys
    ensures forall k :: k in p && k in formData ==> p[k] == Some(formData[k])
    ensures forall k :: k in p && k !in formData ==> p[k] == None
  {
    map k | k in keys :: Lookup(formData, k)
  }

  /**
   * The `reduce` of the submit handler: it writes `acc[key] = formData[key]`
   * into an initially empty record for each visible field in turn. The result
   * is the projection of the submitted values onto the visible fields.
   */
  method BuildPayload<V>(formData: map<FieldId, V>, visibleFields: seq<FieldId>) returns (payload: Payload<V>)
    ensures payload == Project(formData, Elements(visibleFields))
  {
    payload := map[];
    var i := 0;
    while i < |visibleFields|
      invariant 0 <= i <= |visibleFields|
      invariant payload == Project(formData, Elements(visibleFields[..i]))
    {
      var key := visibleFields[i];
      assert Elements(visibleFields[..i + 1]) == Elements(visibleFields[..i]) + {key} by {
        assert visibleFields[..i + 1] == visibleFields[..i] + [key];
      }
      payload := payload[key := Lookup(formData, key)];
      i := i + 1;
    }
    assert visibleFields[..i] == visibleFields;
  }

  /** The error record after `setError(fieldId, { message })` for each entry in order. */
  function Reported(errors: map<FieldId, FieldError>, entries: ErrorEntries): map<FieldId, FieldError>
  {
    if entries == [] then errors
    else
      var last := entries[|entries| - 1];
      Reported(errors, entries[..|entries| - 1])[last.0 := FieldError(Some(last.1))]
  }

  /** The keys of `Object.entries(errors)`. */
  function EntryKeys(entries: ErrorEntries): set<FieldId>
  {
    set i | 0 <= i < |entries| :: entries[i].0
  }

  /** The keys of a JavaScript object are distinct, and so are those of its entries. */
  ghost predicate DistinctKeys(entries: ErrorEntries)
  {
    forall i, j :: 0 <= i < j < |entries| ==> entries[i].0 != entries[j].0
  }

  /**
   * Reporting touches exactly the fields named by the entries: they gain an
   * error, and every other field keeps the error it had, or still has none.
   */
  lemma {:induction false} ReportedTouchesOnlyEntries(errors: map<FieldId, FieldError>, entries: ErrorEntries)
    ensures Reported(errors, entries).Keys == errors.Keys + EntryKeys(entries)
    ensures forall k :: k in errors && k !in EntryKeys(entries) ==> Reported(errors, entries)[k] == errors[k]
  {
    if entries != [] {
      var init := entries[..|entries| - 1];
      ReportedTouchesOnlyEntries(errors, init);
      assert EntryKeys(entries) == EntryKeys(init) + {entries[|entries| - 1].0} by {
        forall k | k in EntryKeys(entries) ensures k in EntryKeys(init) + {entries[|entries| - 1].0} {
          var i :| 0 <= i < |entries| && entries[i].0 == k;
          if i < |entries| - 1 { assert init[i] == entries[i]; }
        }
        forall k | k in EntryKeys(init) ensures k in EntryKeys(entries) {
          var i :| 0 <= i < |init| && init[i].0 == k;
          assert entries[i] == init[i];
        }
      }
    }
  }

  /** With distinct keys, each field named by an entry ends up with that entry's own message. */
  lemma {:induction false} ReportedMessages(errors: map<FieldId, FieldError>, entries: ErrorEntries)
    requires DistinctKeys(entries)
    ensures forall i :: 0 <= i < |entries| ==>
              entries[i].0 in Reported(errors, entries)
              && Reported(errors, entries)[entries[i].0] == FieldError(Some(entries[i].1))
  {
    if entries != [] {
      var n := |entries| - 1;
      var init := entries[..n];
      ReportedMessages(errors, init);
      forall i | 0 <= i < n
        ensures Reported(errors, entries)[entries[i].0] == FieldError(Some(entries[i].1))
      {
        assert init[i] == entries[i];
        assert entries[i].0 != entries[n].0;
      }
    }
  }

  /**
   * The form's mutable collaborators as the submit handler sees them:
   * react-hook-form's error record and the arguments `mutation.mutate` has
   * been called with, in order.
   */
  class FormController<V> {
    var errors: map<FieldId, FieldError>
    var submissions: seq<Payload<V>>

    constructor ()
      ensures errors == map[] && submissions == []
    {
      errors := map[];
      submissions := [];
    }

    /** `Object.entries(errors).forEach(([fieldId, message]) => setError(fieldId, { message }))`. */
    method ReportErrors(entries: ErrorEntries)
      modifies this
      ensures errors == Reported(old(errors), entries)
      ensures submissions == old(submissions)
    {
      var i := 0;
      while i < |entries|
        invariant 0 <= i <= |entries|
        invariant errors == Reported(old(errors), entries[..i])
        invariant submissions == old(submissions)
      {
        var (fieldId, message) := entries[i];
        assert entries[..i + 1][..i] == entries[..i];
        errors := errors[fieldId := FieldError(Some(message))];
        i := i + 1;
      }
      assert entries[..i] == entries;
    }

    /**
     * The submit handler. The validator runs on the submitted values and the
     * field state computed from the watched values (`current`); when it
     * reports any error, each is routed to its field and nothing is
     * submitted. Otherwise exactly one submission is made, whose payload is
     * the projection of the submitted values onto `visibleFields`, the visible
     * set of the field state computed from empty values: the two field states
     * are independent inputs.
     */
    method HandleSubmit(formData: map<FieldId, V>, current: FieldState, visibleFields: seq<FieldId>,
                        validateForm: (map<FieldId, V>, FieldState) -> ErrorEntries)
      modifies this
      ensures var entries := validateForm(formData, current);
              |entries| > 0 ==> errors == Reported(old(errors), entries) && submissions == old(submissions)
      ensures var entries := validateForm(formData, current);
              |entries| == 0 ==>
                errors == old(errors)
                && submissions == old(submissions) + [Project(formData, Elements(visibleFields))]
    {
      var entries := validateForm(formData, current);
      if |entries| > 0 {
        ReportErrors(entries);
        return;
      }
      var payload := BuildPayload(formData, visibleFields);
      submissions := submissions + [payload];
    }
  }

  /**
   * The payload does not follow the current field state: whatever the form
   * displays under it, a field that is not among `visibleFields` (the visible
   * set of the field state computed from empty values) is absent from the
   * projection the submit handler sends. This is a corollary connecting the
   * two views: the absence follows from `Project`'s key set alone, and the
   * rendering hypotheses only say that the field is on screen.
   */
  lemma RenderedFieldOutsideVisibleFieldsNotSubmitted<V>(sections: seq<Section>, formValues: map<FieldId, V>,
                                                        current: FieldState, errors: map<FieldId, FieldError>,
                                                        formData: map<FieldId, V>, visibleFields: seq<FieldId>,
                                                        i: nat, c: SectionCard.RenderedField<V>)
    requires i < |sections|
    requires RenderSections(sections, formValues, current, errors)[i].Some?
    requires c in RenderSections(sections, formValues, current, errors)[i].value
    requires c.field.id !in visibleFields
    ensures SectionCard.Shown(current.visibility, c.field.id)
    ensures c.field.id !in Project(formData, Elements(visibleFields))
  {
  }

  /**
   * The hypotheses above can be met: a field shown under the current field
   * state with a user-entered value, while `visibleFields` is empty.
   */
  lemma ShownFieldCanBeDropped()
    ensures RenderSections([Section([Field("state", None)])],
                           map["state" := "CA"], FieldState(map["state" := true], map[]), map[])
            == [Some([SectionCard.RenderedField(Field("state", None), 12, Some("CA"), None, None)])]
    ensures "state" !in Project(map["state" := "CA"], Elements([]))
  {
    var field := Field("state", None);
    var section := Section([field]);
    var formData := map["state" := "CA"];
    var visibility := map["state" := true];
    assert [field][1..] == [];
    assert SectionCard.VisibleFields([field], visibility) == [field];
    var cells := SectionCard.RenderSection(section, formData, visibility, map[], map[]);
    var noRequired: map<FieldId, bool> := map[];
    assert Lookup(noRequired, "state") == None;
    assert SectionCard.ErrorMessage(map[], "state") == None;
    assert cells.value == [SectionCard.RenderedField(field, 12, Some("CA"), None, None)];
    assert cells == Some([SectionCard.RenderedField(field, 12, Some("CA"), None, None)]);
    assert Elements([]) == {};
  }
}
