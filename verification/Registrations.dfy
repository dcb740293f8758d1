/** The status of a registration. */
module Registrations {
  datatype RegStatus = Confirmed | Cancelled | CheckedIn
}
