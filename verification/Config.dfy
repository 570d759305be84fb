/** The tuning constants and MIME tables of `src/config.rs`, `src/daemon/types.rs` and `src/main.rs`. */
module Config {

  /** MIME types are compared as plain strings. */
  type Mime = string

  newtype byte = x: int | 0 <= x < 256
  type Bytes = seq<byte>

  const MAX_HISTORY: nat := 1000
  const MAX_CONTENT_BYTES: nat := 1024 * 1024
  const MAX_MIMES_PER_SELECTION: nat := 4
  const MAX_LIST_LIMIT: nat := 100
  const PREVIEW_CHARS: nat := 200
  const MAX_LINE_BYTES: nat := 64 * 1024
  const BROADCAST_CAPACITY: nat := 64
  const RESTORE_QUEUE_CAPACITY: nat := 32
  const ECHO_SUPPRESS_SECS: nat := 5

  const PLAIN_UTF8: Mime := "text/plain;charset=utf-8"
  const PLAIN: Mime := "text/plain"
  const HTML: Mime := "text/html"
  const TEXT_ATOM: Mime := "TEXT"
  const STRING_ATOM: Mime := "STRING"
  const UTF8_STRING_ATOM: Mime := "UTF8_STRING"

  const PREFERRED_TEXT_MIMES: seq<Mime> :=
    [PLAIN_UTF8, PLAIN, "text/markdown", HTML, "text/uri-list", TEXT_ATOM, STRING_ATOM, UTF8_STRING_ATOM]

  const SUPPORTED_BINARY_MIMES: seq<Mime> := ["image/png", "image/jpeg", "image/webp", "image/gif"]

  const TEXT_ALIASES: seq<Mime> := [PLAIN, PLAIN_UTF8, TEXT_ATOM, STRING_ATOM, UTF8_STRING_ATOM]
}
