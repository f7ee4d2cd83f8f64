/** The part of a background session record that the durable protocols read
    (src/agenthicc/background/model.py). */
module Sessions {
  import opened Wrappers

  datatype Status =
    | Queued | Starting | Running | WaitingApproval | WaitingInput | Retrying | Cancelling
    | Completed | Failed | Cancelled | Orphaned | Archived | Deleted

  /** Identity of one operator-inbox item; stands for the hash of its three parts. */
  datatype ItemId = ItemId(session: string, attempt: nat, request: string)

  datatype Session = Session(
    status: Status,
    attempt: nat,
    leaseToken: string,
    workerPid: Option<nat>,
    approvalItem: Option<ItemId>,
    inputItem: Option<ItemId>)

  predicate Active(status: Status) {
    status in {Queued, Starting, Running, WaitingApproval, WaitingInput, Retrying, Cancelling}
  }

  /** SHA-256 of a lease token, taken to be injective and never the empty text;
      `Unowned` is the empty text that marks a record without a live owner. */
  datatype OwnerHash = Unowned | HashOf(lease: string)
}
