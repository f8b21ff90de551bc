/** The states of a connection, what it waits for, and the outcomes of the calls it makes. */
module States {

  datatype State =
    | CLOSED | PROTO_DETECT | TLS_ACCEPT | READING | PARSING
    | SENDING_HEADERS | SENDING_BODY | KEEP_ALIVE

  datatype Want = NONE | READ | WRITE

  /** What `write` or `SSL_write` may report: some bytes taken, EAGAIN or WANT_WRITE,
      WANT_READ, or any other failure. */
  datatype WriteOutcome = Wrote(n: nat) | WouldBlock | WantRead | WriteFailed

  /** What `sendfile` may report: everything taken, EAGAIN after `n` bytes, or a failure
      after `n` bytes. */
  datatype SendfileOutcome = SentAll | SentSome(n: nat) | SendFailed(n: nat)

  /** What `read` or `SSL_read` may report. `Got("")` is end of stream. */
  datatype ReadOutcome = Got(data: string) | ReadAgain | ReadWantWrite | ReadFailed

  /** What the MSG_PEEK probe of a new connection may report. */
  datatype PeekOutcome = Peeked(first: char) | PeekEof | PeekAgain | PeekFailed

  /** What `SSL_accept` may report. */
  datatype HandshakeOutcome = HandshakeDone | HandshakeWantRead | HandshakeWantWrite | HandshakeFailed

  /** The outcomes met while sending; `pread` is the number of bytes it returns, 0 for none or an error. */
  datatype SendIo = SendIo(header: WriteOutcome, body: WriteOutcome, sendfile: SendfileOutcome, pread: nat)

  datatype Transfer = Moved(n: nat) | Blocked(want: Want) | Broken

  function Min(a: nat, b: nat): nat { if a < b then a else b }

  /** How a write of `available` bytes ends, on a plain or a TLS connection. */
  function WriteResult(tls: bool, w: WriteOutcome, available: nat): (t: Transfer)
    ensures t.Moved? ==> t.n <= available
  {
    match w
    case Wrote(n) => if tls && Min(n, available) == 0 then Broken else Moved(Min(n, available))
    case WouldBlock => Blocked(WRITE)
    case WantRead => if tls then Blocked(READ) else Broken
    case WriteFailed => Broken
  }
}
