// Connections are named by numbers; a number is never used twice.
module Connection {
  type Conn = nat
}
