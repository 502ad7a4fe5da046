/** The messages a connection can be asked to write (src/lib.rs). */
module Messages {
  type byte = b: int | 0 <= b < 256

  type u16 = n: int | 0 <= n < 0x1_0000

  datatype Message =
    | Text(text: string)
    | Binary(data: seq<byte>)
    | Close(code: u16, reason: seq<byte>)
}
