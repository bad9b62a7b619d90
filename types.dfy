/**
 * The records the reconciliation daemon reads from its document store:
 * meetings (with the status the store keeps beside them), users and their
 * devices, and the status codes used on the wire.
 */
module Types {

  /** A store identifier, represented by its hexadecimal form (so `Hex()` is the identity). */
  type ObjectId = string

  /** A point in time; only its order matters to the core. */
  type Time = int

  /** Status codes as stored in the `status` field of a meeting document. */
  const StatusScheduled: int := 1
  const StatusActive: int := 2
  const StatusComplete: int := 3
  const StatusCanceled: int := 4
  const StatusZombie: int := 5

  datatype Option<T> = None | Some(value: T)

  datatype Result<T, E> = Success(value: T) | Failure(error: E)

  /** A registered device of a user; only `token` is used by the core. */
  datatype Device = Device(id: ObjectId, token: string, name: string, platform: string)

  datatype User = User(id: ObjectId, firstName: string, lastName: string, devices: seq<Device>)

  /** The empty user a failed lookup leaves behind. */
  const EmptyUser: User := User("", "", "", [])

  datatype Meeting = Meeting(
    id: ObjectId,
    goal: string,
    participants: seq<ObjectId>,
    owner: ObjectId,
    company: ObjectId,
    room: ObjectId,
    startTime: Time,
    endTime: Time)

  /**
   * A stored meeting document: the decoded `Meeting` record plus the `status`
   * field, which the document carries but the record type does not.
   */
  datatype Document = Document(meeting: Meeting, status: int)
}
