/**
 * The records of the marketplace store: profiles, contracts between a client
 * and a contractor, and the jobs billed under a contract.  Balances and prices
 * are integers; a timestamp is an integer ordered like the dates it stands for.
 */
module Entities {

  type ProfileId = int
  type ContractId = int
  type JobId = int
  type Timestamp = int

  datatype Option<T> = None | Some(value: T)

  /**
   * A record that is not in the store, or an input the corrected deposit
   * refuses (a non-positive amount).
   */
  datatype Error = NotFound | InvalidInput

  datatype Result<T> = Ok(value: T) | Err(error: Error)

  datatype ProfileType = Client | Contractor

  datatype Profile = Profile(
    id: ProfileId,
    firstName: string,
    lastName: string,
    profession: string,
    balance: int,
    kind: ProfileType)

  datatype ContractStatus = New | InProgress | Terminated

  datatype Contract = Contract(
    id: ContractId,
    clientId: ProfileId,
    contractorId: ProfileId,
    status: ContractStatus)

  /**
   * `paid` is a nullable boolean column: `None` is the unset default, and a
   * payment stores `Some(true)`.  `paymentDate` is `None` until a payment.
   */
  datatype Job = Job(
    id: JobId,
    contractId: ContractId,
    description: string,
    price: int,
    paid: Option<bool>,
    paymentDate: Option<Timestamp>)

  /** Truthiness of `job.paid`: only a stored `true` counts as paid. */
  predicate IsPaid(j: Job) {
    j.paid == Some(true)
  }

  /** The inclusive `between` filter on a nullable date; a null date never matches. */
  predicate PaidWithin(j: Job, start: Timestamp, end: Timestamp) {
    j.paymentDate.Some? && start <= j.paymentDate.value <= end
  }

  function FullName(p: Profile): string {
    p.firstName + " " + p.lastName
  }

  function Min(a: int, b: int): int {
    if a <= b then a else b
  }
}
