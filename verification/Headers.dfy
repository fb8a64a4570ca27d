/** What the gateway makes of the X-App-ID header. */
module Headers {
  datatype AppHeader = Missing | Garbled | App(id: nat)
}
