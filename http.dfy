/** The `ResponseWriter` wrapper of http.go: it forwards to the host's
    writer and keeps two counters, the bytes written so far and the last
    status code. What the host's `Write` reports, `(n, err)`, is a parameter:
    the transport itself is not modelled. */
module Http {

  /** The two counters of the wrapper. */
  datatype Counters = Counters(size: int, statusCode: int)

  /** The counters of a wrapper made with `&ResponseWriter{w, 0, 0}`. */
  const Fresh := Counters(0, 0)

  /** The counters after a write for which the host reported `n` bytes and
      an error flag: the count grows only when there was no error. */
  function AfterWrite(c: Counters, n: int, failed: bool): (d: Counters)
    ensures d.statusCode == c.statusCode
    ensures failed ==> d == c
    ensures !failed ==> d.size - c.size == n
  {
    if failed then c else Counters(c.size + n, c.statusCode)
  }

  /** The counters after `WriteHeader(code)`: the size is untouched. */
  function AfterHeader(c: Counters, code: int): (d: Counters)
    ensures d.size == c.size && d.statusCode == code
  {
    Counters(c.size, code)
  }

  /** `Written()`: something has been written. */
  predicate Written(c: Counters) {
    c.size > 0
  }

  class ResponseWriter {
    var size: int
    var statusCode: int

    function State(): Counters
      reads this
    {
      Counters(size, statusCode)
    }

    constructor ()
      ensures State() == Fresh
    {
      size := 0;
      statusCode := 0;
    }

    /** `Write`: passes the host's `(n, err)` back unchanged and adds `n` to
        the size only when the host reported no error. */
    method Write(n: int, failed: bool) returns (written: int, err: bool)
      modifies this
      ensures written == n && err == failed
      ensures State() == AfterWrite(old(State()), n, failed)
    {
      if !failed {
        size := size + n;
      }
      written, err := n, failed;
    }

    /** `WriteHeader(i)`: records `i` as the status code. */
    method WriteHeader(i: int)
      modifies this
      ensures State() == AfterHeader(old(State()), i)
    {
      statusCode := i;
    }

    /** `Written()`. */
    method IsWritten() returns (b: bool)
      ensures b <==> Written(State())
    {
      b := size > 0;
    }
  }

  /** With the host's promise that a write reports `n >= 0`, the size never
      goes down, and a successful non-empty write makes the wrapper written. */
  lemma SizeGrows(c: Counters, n: int, failed: bool)
    requires n >= 0
    ensures AfterWrite(c, n, failed).size >= c.size
    ensures c.size >= 0 && !failed && n > 0 ==> Written(AfterWrite(c, n, failed))
    ensures Written(c) ==> Written(AfterWrite(c, n, failed))
  {
  }

  /** The last `WriteHeader` wins, and writing the body and the header
      commute. */
  lemma LastHeaderWins(c: Counters, a: int, b: int, n: int, failed: bool)
    ensures AfterHeader(AfterHeader(c, a), b) == AfterHeader(c, b)
    ensures AfterWrite(AfterHeader(c, a), n, failed) == AfterHeader(AfterWrite(c, n, failed), a)
  {
  }

  /** A fresh wrapper has written nothing and has no status yet. */
  lemma FreshNotWritten()
    ensures !Written(Fresh) && Fresh.statusCode == 0
  {
  }
}
