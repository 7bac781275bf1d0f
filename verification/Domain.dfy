/** The names every part of the server shares. */
module Domain {
  type RoomId = nat
  type UserId = nat

  datatype Option<T> = None | Some(value: T)

  datatype RoomKind = Public | Private | DM | Voice
}
