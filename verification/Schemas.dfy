// The nine messages of winfiolAxeMed.proto: field numbers and kinds.
module Schemas {
  import opened Messages

  const SESSION_REQUEST: Schema := [FieldDesc(1, Text), FieldDesc(2, Text)]
  const SESSION_RESPONSE: Schema := [FieldDesc(1, Text)]
  const CONNECT_REQUEST: Schema :=
    [FieldDesc(1, Text), FieldDesc(2, Text), FieldDesc(3, Number),
     FieldDesc(4, Text), FieldDesc(5, Text), FieldDesc(6, Number)]
  const COMMAND_REQUEST: Schema :=
    [FieldDesc(1, Text), FieldDesc(2, Text), FieldDesc(3, Text), FieldDesc(4, Text)]
  const COMMAND_RESPONSE: Schema := [FieldDesc(1, Text)]
  const STREAM_MESSAGE: Schema := [FieldDesc(1, Text), FieldDesc(2, Number), FieldDesc(3, Text)]
  const TERMINAL_ACTION_REQUEST: Schema := [FieldDesc(1, Text), FieldDesc(2, Number)]
  const GENERIC_REQUEST: Schema := [FieldDesc(1, Text)]
  const GENERIC_RESPONSE: Schema := [FieldDesc(1, Number)]
}
