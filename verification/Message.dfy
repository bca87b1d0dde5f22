/** Constants of the message-block protocol shared by host and micro-controller
    (klippy/chelper/msgblock.h, klippy/chelper/serialqueue.c and serialqueue.h). */
module Message {
  const MESSAGE_MIN := 5
  const MESSAGE_MAX := 64
  const MESSAGE_HEADER_SIZE := 2
  const MESSAGE_TRAILER_SIZE := 3
  const MESSAGE_PAYLOAD_MAX := MESSAGE_MAX - MESSAGE_MIN
  const MESSAGE_SEQ_SPAN := 16 // MESSAGE_SEQ_MASK + 1

  const MAX_PENDING_BLOCKS := 12
  const MAX_CLOCK: nat := 0x7fff_ffff_ffff_ffff
  const BACKGROUND_PRIORITY_CLOCK: nat := 0x7fff_ffff_0000_0000

  const MIN_RTO := 0.025
  const MAX_RTO := 5.0
  const MIN_REQTIME_DELTA := 0.250
  const MIN_BACKGROUND_DELTA := 0.005

  type byte = n: int | 0 <= n < 0x100

  datatype Option<+T> = None | Some(value: T)
}
