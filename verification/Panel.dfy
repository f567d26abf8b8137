/** Panel entities that several components share. */
module Panel {
  type Uuid = string

  datatype User = User(id: int, uuid: Uuid, deviceLimit: int, speedLimit: int)
}
