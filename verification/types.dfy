/** Identifiers and enumerations shared by every component. */
module Types {

  /** A peer. The libp2p `PeerId` and the `Y7Id` of an Ed25519 peer determine each other, so one name serves both. */
  type PeerId = nat

  /** A UUIDv7 (section 5.7 of RFC 9562): byte order is creation order, so ids are compared as numbers. */
  type MessageId = nat

  datatype Option<+T> = None | Some(value: T)

  datatype MessageStatus = Sending | Sent | Delivered | Synced | Failed {
    /** The discriminant stored in the `status` column. */
    function AsInt(): nat {
      match this
      case Sending => 0
      case Sent => 1
      case Delivered => 2
      case Synced => 3
      case Failed => 4
    }
  }

  datatype ContactStatus = Accepted | PendingOut | PendingIn | Blocked | Removed

  function Pow2(n: nat): (r: nat)
    ensures r >= 1
  {
    if n == 0 then 1 else 2 * Pow2(n - 1)
  }
}
