/** The values that members exchange and keep about each other. */
module Types {

  datatype Option<+T> = None | Some(value: T)

  newtype Byte = x: int | 0 <= x < 256

  type Bytes = seq<Byte>

  /** A member's identity, and the name of a queued broadcast about it. */
  datatype Id = Id(text: string)

  const NO_ID := Id("")

  datatype Address = Address(ip: Bytes, port: nat)

  datatype StateType = StateAlive | StateSuspect | StateDead | StateLeft

  /** What `Node` carries: the identity, address and tags that events report. */
  datatype Member = Member(id: Id, addr: Address, tags: Bytes)

  /** One row of a membership table (the fields of `nodeState`). */
  datatype Entry = Entry(addr: Address, tags: Bytes, lives: nat, state: StateType, changed: int) {
    predicate DeadOrLeft() {
      state == StateDead || state == StateLeft
    }
  }

  /** A claim about the member `id`: the three gossip messages, and one element
      of a push-pull snapshot (`stateToMerge`). */
  datatype Claim =
    | Alive(lives: nat, id: Id, addr: Address, tags: Bytes)
    | Suspect(lives: nat, id: Id, from: Id)
    | Dead(lives: nat, id: Id, left: bool)
    | Remote(lives: nat, id: Id, addr: Address, tags: Bytes, state: StateType)

  type AliveClaim = c: Claim | c.Alive? witness Alive(0, NO_ID, Address([], 0), [])
  type SuspectClaim = c: Claim | c.Suspect? witness Suspect(0, NO_ID, NO_ID)
  type DeadClaim = c: Claim | c.Dead? witness Dead(0, NO_ID, false)
  type RemoteClaim = c: Claim | c.Remote? witness Remote(0, NO_ID, Address([], 0), [], StateAlive)

  datatype EventKind = NodeJoin | NodeLeave | NodeUpdate

  datatype Event = Event(kind: EventKind, node: Member)

  /** The notifications sent so far, oldest first. */
  datatype Log = Quiet | Then(before: Log, last: Event)

  /** A suspicion timer started for `id` when its suspicion began at `lives`. */
  datatype Timer = Timer(id: Id, lives: nat)

  function Max(a: int, b: int): (r: int) {
    if a < b then b else a
  }
}
