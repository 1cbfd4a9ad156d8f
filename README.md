# Form renderer and section card: a Dafny model

This project models the deterministic logic around the form engine of a
schema-driven form front end: the form renderer's submit handler (error
gating, then projection of the submitted values onto the visible fields), the
defaults it applies to a fetched form version, and the section card's field
filter, grid-width mapping and per-field props.

The field-state engine (`useFieldState`), the validator (`validateForm`), the
react-hook-form store and the react-query mutation are collaborators whose
code is not part of this model. They appear as inputs:

- the validator is a function parameter from (submitted values, field state)
  to the `Object.entries` of its error object;
- the two field-state results the renderer uses are separate inputs. `current`
  is computed from the watched values and drives rendering and validation.
  `visibleFields` comes from the call made with empty values and drives the
  payload. Nothing in the model assumes they agree:
  `FormRenderer.RenderedFieldOutsideVisibleFieldsNotSubmitted` proves that a
  displayed field outside `visibleFields` is never submitted, and
  `FormRenderer.ShownFieldCanBeDropped` gives inputs where such a field holds a
  user-entered value;
- `setError` writes into the controller's `errors` map, and each
  `mutation.mutate` call appends its payload to the controller's
  `submissions` log.

Values are a type parameter `V`. Reading a missing key of a plain object
(`undefined`) is `Option.None`.

Files: `wrappers.dfy` (Option), `form_types.dfy` (the shapes the core reads),
`section_card.dfy` (module `SectionCard`), `form_renderer.dfy` (module
`FormRenderer`, with the class `FormController` for the submit handler).

## Model

| member | source | states |
|---|---|---|
| SectionCard.VisibleFields | src/components/form/SectionCard.tsx:22-24 | the filtered list is no longer than the section's fields and every field in it is shown (its visibility entry is not `false`) |
| SectionCard.VisibleFieldsMembership | src/components/form/SectionCard.tsx:22-24 | a field is kept if and only if it belongs to the section and its visibility entry is not `false`, so a field with no entry is kept |
| SectionCard.VisibleFieldsOrder | src/components/form/SectionCard.tsx:22-24 | the visible list is the section's fields taken at strictly increasing positions, and those positions are exactly the shown ones (order preserved, nothing else dropped) |
| SectionCard.VisibleFieldsIdempotent | src/components/form/SectionCard.tsx:22-24 | filtering the visible list again with the same map returns the same list |
| SectionCard.VisibleFieldsEmpty | src/components/form/SectionCard.tsx:22-26 | the visible list is empty if and only if every field of the section has an explicit `false` visibility entry |
| SectionCard.GridSpan | src/components/form/SectionCard.tsx:28-39 | the span is not 12 exactly when the width is 3, 4 or 6, and then it equals the width; every other width, absent included, spans 12; every span divides the 12-column row |
| SectionCard.RenderSection | src/components/form/SectionCard.tsx:26-67 | the card renders nothing exactly when the visible list is empty; otherwise it renders one entry per visible field, in the visible list's order |
| SectionCard.RenderSectionNothing | src/components/form/SectionCard.tsx:26 | a section renders nothing if and only if all of its fields are explicitly hidden |
| SectionCard.RenderedFieldsOwnProps | src/components/form/SectionCard.tsx:53-63 | every rendered field is a shown field of the section and receives `values[id]`, `requiredMap[id]`, `errors[id]?.message` and the grid span for its own id and width |
| FormRenderer.SectionsOf | src/components/form/FormRenderer.tsx:21-24 | the sections are the schema's own when the version, its schema and their sections are all present, and the empty list when any of them is missing |
| FormRenderer.SubmitButtonText | src/components/form/FormRenderer.tsx:89-90 | the button text is the configured `submit_button_text` when present (an empty string included) and `"Enviar"` when any link of the chain is absent |
| FormRenderer.RenderSectionsFollowCurrentState | src/components/form/FormRenderer.tsx:111-124 | for every section, its card is empty exactly when all its fields are explicitly hidden in the current field state's visibility map; otherwise it shows, in the section's order, exactly the fields that map does not hide (every such field is on the card and no other), each given the watched value, the current required flag and the error stored under its own id |
| FormRenderer.Project | src/components/form/FormRenderer.tsx:58-61 | the payload's key set equals the visible-field set; a key with a submitted value carries that value, a visible key without one carries `undefined` (not `null`), and a submitted key outside the set is absent |
| FormRenderer.BuildPayload | src/components/form/FormRenderer.tsx:58-61 | the accumulator loop over the visible fields yields exactly the projection of the submitted values onto the set of those fields |
| FormRenderer.ReportedTouchesOnlyEntries | src/components/form/FormRenderer.tsx:52-54 | reporting the validator's errors adds exactly the fields they name to the error record and leaves every other field's error as it was |
| FormRenderer.ReportedMessages | src/components/form/FormRenderer.tsx:52-54 | with the distinct keys of an object's entries, every field named by the validator ends up with that entry's own message |
| FormRenderer.FormController.ReportErrors | src/components/form/FormRenderer.tsx:52-54 | the `forEach` over the entries leaves the error record equal to the old record with each entry's `setError` applied in order, and submits nothing |
| FormRenderer.FormController.HandleSubmit | src/components/form/FormRenderer.tsx:49-64 | a non-empty error result routes every error to its field and submits nothing; an empty one leaves the errors alone and makes exactly one submission, whose payload is the projection onto `visibleFields` (not onto the current field state) |
| FormRenderer.RenderedFieldOutsideVisibleFieldsNotSubmitted | src/components/form/FormRenderer.tsx:26-63 | for all inputs: a field displayed in some card under the current field state but not among `visibleFields` (computed from empty values) is shown by the current visibility map and absent from the projected payload |
| FormRenderer.ShownFieldCanBeDropped | src/components/form/FormRenderer.tsx:26-63 | a witness: there are inputs where a field is displayed with a user-entered value while `visibleFields` is empty, so the submission leaves it out |

## Left out

- `useFieldState`, `validateForm`, `useFormInitialization`, `useFormSubmission` and `FieldControl`: their code is not part of this model. Their results are inputs, and no visibility, required or validation rule is assumed of them.
- react-hook-form mechanics (`watch`, `setValue`, `reset`, `formState`, the library's own validation pass inside `handleSubmit`, and dotted field paths in `setError`): a field id is treated as a flat key, and `setError` as a plain write of `{ message }` under that key.
- react-query mutation status (`isPending`, `isError`, `isSuccess`) and the success and failure messages: only the calls to `mutate` are recorded.
- The loading and error branch (src/components/form/FormRenderer.tsx:66-87), the header, `FormStatus`, `FormSubmitMessage`, `FormActions` and every Tailwind class string except the span chosen by `gridSpan`.
- src/services/formService.ts: network I/O (fetch, multipart upload, JSON parsing, the base URL from the environment). Its serialisation of the payload with `JSON.stringify`, which omits keys whose value is `undefined`, is therefore not modelled either.
- Plain JavaScript objects are modelled as maps, so the key order of the payload object (the `visibleFields` iteration order, which serialisation keeps) is not kept. Field ids that name `Object.prototype` members (`__proto__`, `toString`, …) would behave differently in the source and are assumed not to occur.
- `grid_width` is a real number. `NaN` and other non-finite numbers are not modelled; they fall into the 12-span default in the source.
- Asynchronous behaviour, cancellation and file upload.
