/** The UUID keys of the tables, ordered as the database orders them. */
module Uuids {
  datatype Uuid = Uuid(number: nat)
}
