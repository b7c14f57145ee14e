/**
 * The field normalisation applied to each ServiceNow row before it is shown and
 * handed back for migration. The HTTP fetch itself is outside this model.
 */
module Records {
  import opened Js

  /** A ServiceNow table row; every field may be missing. */
  datatype Row = Row(
    sysId: Option<string>,
    number: Option<string>,
    name: Option<string>,
    shortDescription: Option<string>,
    description: Option<string>,
    state: Option<string>,
    priority: Option<string>)

  /**
   * A normalised record. `name` holds the ServiceNow number (or the row's name
   * when it has none) and is the key the migration deduplicates on; an empty
   * `name` means the record cannot be deduplicated.
   */
  datatype Record = Record(
    id: Option<string>,
    name: string,
    summary: string,
    description: string,
    status: string,
    priority: string)

  /** The summary used when a row has no short description, name or number. */
  const NoSummary: string := "No summary"

  /**
   * Normalises one row: the number falls back to the name, the summary runs the
   * chain short description, name, number, "No summary", and the other text
   * fields fall back to the empty string.
   */
  function Normalize(p: Row): (r: Record)
    ensures r.id == p.sysId
    ensures r.name == "" <==> !Truthy(p.number) && !Truthy(p.name)
    ensures Truthy(p.number) ==> r.name == p.number.value
    ensures !Truthy(p.number) && Truthy(p.name) ==> r.name == p.name.value
    ensures r.summary != ""
    ensures Truthy(p.shortDescription) ==> r.summary == p.shortDescription.value
    ensures !Truthy(p.shortDescription) && Truthy(p.name) ==> r.summary == p.name.value
    ensures !Truthy(p.shortDescription) && !Truthy(p.name) && Truthy(p.number) ==> r.summary == p.number.value
    ensures !Truthy(p.shortDescription) && !Truthy(p.name) && !Truthy(p.number) ==> r.summary == NoSummary
    ensures Truthy(p.description) ==> r.description == p.description.value
    ensures !Truthy(p.description) ==> r.description == ""
    ensures Truthy(p.state) ==> r.status == p.state.value
    ensures !Truthy(p.state) ==> r.status == ""
    ensures Truthy(p.priority) ==> r.priority == p.priority.value
    ensures !Truthy(p.priority) ==> r.priority == ""
  {
    Record(
      p.sysId,
      Or(p.number, Or(p.name, "")),
      Or(p.shortDescription, Or(p.name, Or(p.number, NoSummary))),
      Or(p.description, ""),
      Or(p.state, ""),
      Or(p.priority, ""))
  }
}
