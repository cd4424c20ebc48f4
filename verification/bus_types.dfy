/** Names shared by every part of the model of the message bus daemon. */
module BusTypes {

  /** Identity of a `DBusConnection`; only pointer equality is ever used on one. */
  type Conn = int

  /** A bus name: a unique name such as ":1.7" or a well-known name such as "org.example.Foo". */
  type Name = string

  datatype Option<+T> = None | Some(value: T)

  /** The name reserved for the bus itself (dbus/dbus-shared.h, DBUS_SERVICE_DBUS). */
  const DBUS_SERVICE_DBUS: Name := "org.freedesktop.DBus"

  const INT_MAX: int := 0x7fff_ffff
  const INT_MIN: int := -0x8000_0000

  /** Two's-complement wrap-around of a 32-bit `int`. */
  function Wrap32(x: int): (r: int)
    ensures INT_MIN <= r <= INT_MAX
    ensures INT_MIN <= x <= INT_MAX ==> r == x
    ensures x == INT_MAX + 1 ==> r == INT_MIN
  {
    (x - INT_MIN) % 0x1_0000_0000 + INT_MIN
  }

  /** A wall-clock time as `struct timeval` splits it. */
  datatype Timestamp = Timestamp(sec: int, usec: int)

  /**
   A reply the bus will let through (BusPendingReply). `id` is the identity of the record;
   `sender` becomes None when the connection that owed the reply goes away.
   */
  datatype PendingReply = PendingReply(id: nat, getter: Conn, sender: Option<Conn>, serial: nat, added: Timestamp)
}
