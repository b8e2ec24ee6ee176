/** Identifiers, and the mutable player objects that queues, squads and rooms share. */
module Players {
  import opened Wrappers
  import opened RpsEngine

  /** Room and squad ids are uuids in the source; here they are numbers handed out once each. */
  type RoomId = nat

  type SquadId = nat

  /** User ids are uuids of database rows, so never empty. */
  type UserId = id: string | id != "" witness "u"

  /** `game:reconnect` gives a player object a new socket. */
  class PlayerState {
    const userId: UserId
    const walletVerified: bool
    var socketId: string
    var move: Option<Move>

    constructor (userId: UserId, socketId: string, walletVerified: bool)
      ensures this.userId == userId && this.socketId == socketId && this.walletVerified == walletVerified
      ensures move == None
    {
      this.userId, this.socketId, this.walletVerified, move := userId, socketId, walletVerified, None;
    }
  }

  /** The two seats of a room. */
  datatype Pairing = Pairing(player1: PlayerState, player2: PlayerState)

  predicate Seats(seats: Pairing, p: PlayerState) {
    p == seats.player1 || p == seats.player2
  }

  /** Some player object sits in both. */
  predicate Share(a: Pairing, b: Pairing) {
    Seats(a, b.player1) || Seats(a, b.player2)
  }
}
