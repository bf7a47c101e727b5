/** The record shapes of types.ts. */
module Types {
  import opened Wrappers

  /** An instant. The source keeps timestamps as ISO-8601 strings; the model
      keeps only the instant such a string names, so ordering by creation
      time is ordering on `Time`. */
  type Time = nat

  /** The two values the `status` field can take. */
  datatype Status = Sent | Opened

  /** One tracked email as the client sees it: the server-assigned `id` and
      the client-generated `trackingId` are two separate identifiers. */
  datatype TrackedEmail = TrackedEmail(
    id: string,
    recipient: string,
    subject: string,
    createdAt: Time,
    openedAt: Option<Time>,
    status: Status,
    trackingId: string)

  /** The derived counters shown on the dashboard. */
  datatype Stats = Stats(totalSent: nat, totalOpened: nat, openRate: nat)

  /** The record invariant every write path keeps: the status is `opened`
      exactly when an opening time is recorded. */
  predicate OpenedIffStamped(status: Status, openedAt: Option<Time>) {
    status == Opened <==> openedAt.Some?
  }
}
