/** The client's notifications: a success or an error message shown to the user. */
module Toasts {
  datatype Toast = Success(message: string) | Error(message: string)
}
