/** References to a dataset's fields, and how they are written. */
module Fields {
  datatype FieldRef = FieldRef(dataset: string, field: string)

  function RefText(r: FieldRef): string {
    r.dataset + "." + r.field
  }
}
