/** The event envelopes the Kafka consumers read, by the fields they act on. */
module Events {
  /** The event types the consumers tell apart; OtherType also stands for malformed records. */
  datatype EventType =
    | RegistrationCreated
    | RegistrationApproved
    | RegistrationRejected
    | RegistrationExpired
    | RegistrationCancelled
    | OtherType

  /** A domain event, or the realtime hint for the notification of event `eventId` to `recipient`. */
  datatype Event =
    | Domain(eventType: EventType, activityId: nat, userId: nat)
    | Hint(eventId: nat, recipient: nat)

  /** The rows a handler looks up: who organizes an activity, and which users exist.  They are never deleted. */
  datatype Directory = Directory(organizers: map<nat, nat>, users: set<nat>)
}
