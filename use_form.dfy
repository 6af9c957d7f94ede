/**
 * The form composable (src/composables/useForm.ts): the edited data, the last
 * validation errors, `validate` and `reset`.
 */
module UseForm {
  import opened Wrappers
  import opened Validation

  /** A form payload object; the bound inputs write its fields in place. */
  class Fields {
    var values: map<string, Option<string>>

    constructor(values: map<string, Option<string>>)
      ensures this.values == values
    {
      this.values := values;
    }

    /** An input bound to `key` writes the object. */
    method Set(key: string, value: Option<string>)
      modifies this
      ensures values == old(values)[key := value]
    {
      values := values[key := value];
    }
  }

  class Form {
    const initialData: Fields
    const schema: map<string, Rule>
    var formData: Fields
    var errors: map<string, seq<string>>

    /**
     * `useForm(initialData, schema)`: `ref(initialData)` wraps the caller's own
     * object, so the form edits `initialData` itself.
     */
    constructor(initialData: Fields, schema: map<string, Rule>)
      ensures this.initialData == initialData && this.schema == schema
      ensures formData == initialData
      ensures errors == map[]
    {
      this.initialData := initialData;
      this.schema := schema;
      formData := initialData;
      errors := map[];
    }

    /** A form that starts from its own copy of `initialData`. */
    constructor Copying(initialData: Fields, schema: map<string, Rule>)
      ensures this.initialData == initialData && this.schema == schema
      ensures fresh(formData) && formData.values == initialData.values
      ensures errors == map[]
    {
      this.initialData := initialData;
      this.schema := schema;
      formData := new Fields(initialData.values);
      errors := map[];
    }

    /** `validate`: replaces the errors by those of the current data and reports whether all are empty. */
    method Validate() returns (ok: bool)
      modifies this`errors
      ensures errors.Keys == schema.Keys
      ensures forall key :: key in schema ==> errors[key] == FieldErrors(Lookup(formData.values, key), schema[key])
      ensures ok <==> forall key :: key in schema ==> FieldErrors(Lookup(formData.values, key), schema[key]) == []
    {
      errors := ValidateForm(formData.values, schema);
      ok := AllEmpty(errors);
    }

    /** `reset`: a fresh shallow copy of `initialData` and no errors. */
    method Reset()
      modifies this`formData, this`errors
      ensures fresh(formData) && formData.values == initialData.values
      ensures errors == map[]
    {
      formData := new Fields(initialData.values);
      errors := map[];
    }
  }

  /**
   * Edit one field of a form built as written, then reset it: the edit went
   * into `initialData` through the shared object, so `reset` brings it back.
   */
  method EditThenReset(key: string, original: Option<string>, edited: Option<string>) returns (afterReset: Option<string>)
    ensures afterReset == edited
  {
    var initial := new Fields(map[key := original]);
    var form := new Form(initial, map[]);
    form.formData.Set(key, edited);
    form.Reset();
    afterReset := form.formData.values[key];
  }

  /** The same edit on a form that copies `initialData`: `reset` restores the original value. */
  method EditThenResetCopying(key: string, original: Option<string>, edited: Option<string>) returns (afterReset: Option<string>)
    ensures afterReset == original
  {
    var initial := new Fields(map[key := original]);
    var form := new Form.Copying(initial, map[]);
    form.formData.Set(key, edited);
    form.Reset();
    afterReset := form.formData.values[key];
  }
}
