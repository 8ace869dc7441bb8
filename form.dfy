/** Form state: field values and per-field validation messages, updated one
    field at a time, and the registry of mounted input elements. */
module Form {
  import opened Outcomes
  import opened Entities

  /** A mounted `<input>` element, known only by its identity. */
  datatype InputElement = InputElement(id: nat)

  /** The message stored for a changed field: the registered input's
      validation message, or "" when no input is registered under it. */
  function MessageFor(inputRefs: map<string, InputElement>, name: string,
                      validationMessage: InputElement -> string): (m: string)
    ensures name !in inputRefs ==> m == ""
    ensures name in inputRefs ==> m == validationMessage(inputRefs[name])
  {
    if name in inputRefs then validationMessage(inputRefs[name]) else ""
  }

  class FormState {
    var values: Fields
    var errors: map<string, string>
    var inputRefs: map<string, InputElement>

    /** `useForm(inputValues)`. */
    constructor (inputValues: Fields)
      ensures values == inputValues && errors == map[] && inputRefs == map[]
    {
      values := inputValues;
      errors := map[];
      inputRefs := map[];
    }

    /** `handleChange` for a change event on field `name`. The browser's
        constraint validation is the parameter `validationMessage`: the
        message an element currently reports. */
    method HandleChange(name: string, value: string, validationMessage: InputElement -> string)
      modifies this
      ensures values == old(values)[name := value]
      ensures errors == old(errors)[name := MessageFor(old(inputRefs), name, validationMessage)]
      ensures inputRefs == old(inputRefs)
      ensures forall f :: f != name && f in old(values) ==> f in values && values[f] == old(values)[f]
      ensures forall f :: f != name && f in old(errors) ==> f in errors && errors[f] == old(errors)[f]
      ensures values.Keys == old(values).Keys + {name} && errors.Keys == old(errors).Keys + {name}
    {
      values := values[name := value];
      var input := MessageFor(inputRefs, name, validationMessage);
      errors := errors[name := input];
    }

    /** The ref callback `getInputRef(name)(el)`: a mounted element is
        recorded, an unmount call (`null`) is ignored. */
    method RegisterInput(name: string, el: Option<InputElement>)
      modifies this
      ensures el.Some? ==> inputRefs == old(inputRefs)[name := el.value]
      ensures el.None? ==> inputRefs == old(inputRefs)
      ensures values == old(values) && errors == old(errors)
    {
      if el.Some? {
        inputRefs := inputRefs[name := el.value];
      }
    }

    /** The exposed `setValues` setter. */
    method SetValues(newValues: Fields)
      modifies this
      ensures values == newValues && errors == old(errors) && inputRefs == old(inputRefs)
    {
      values := newValues;
    }

    /** The hook's own `setErrors` setter. The hook keeps it but does not
        return it to its callers. */
    method SetErrors(newErrors: map<string, string>)
      modifies this
      ensures errors == newErrors && values == old(values) && inputRefs == old(inputRefs)
    {
      errors := newErrors;
    }
  }
}
