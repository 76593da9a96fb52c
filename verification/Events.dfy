// What travels on the event stream: domain events, and the raw entries that carry them.
module Events {
  import opened Wrappers

  // JSON values are kept as their canonical text, with the characters of their strings as they are.
  type Json = string

  // What a version of a policy says, apart from its number.
  datatype Content = Content(name: string, targetGroup: string, settings: Json)

  // PostgreSQL keeps no text, and no JSON, with a NUL character in it.
  predicate Storable(s: string) {
    '\0' !in s
  }

  // One key of a JSON object as a consumer sees it. `Unusable` is a value, other than null, that the
  // consumer's conversion or the database column refuses.
  datatype Field<+T> = Absent | Null | Unusable | Given(value: T)

  datatype Kind = PolicyPublished | PolicyUpdated | PolicyDeleted | Unrecognised

  // In `policyId`, and in the payload as a whole, every other value that counts as false (false, 0, an
  // empty list or object) is read like null. `version` is the number that `int(...)` yields.
  datatype Payload = Payload(policyId: Field<string>, name: Field<string>, targetGroup: Field<string>,
                             version: Field<int>, settings: Field<Json>)

  datatype Event = Event(kind: Kind, payload: Field<Payload>)

  // A stream entry: without a "data" field, with text that is not JSON, with JSON that is not an
  // object, or with an event.
  datatype Entry = NoData | NotJson | NotAnObject | Message(event: Event)
  {
    // The consumer acknowledges these unread, so that they do not block the group.
    predicate Malformed() {
      NoData? || NotJson?
    }
  }
}
