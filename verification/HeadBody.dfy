/** The connection wrapper that writes a HEAD answer's body after its head.

    The HTTP layer writes the head in any pieces, the socket takes any part of each
    piece, and the wrapper keeps three bytes between writes. What reaches the wire is
    compared with a search over everything written for the answer. */
module HeadBody {
  import opened Options
  import opened Bytes

  const HEAD_END: seq<Byte> := [13, 10, 13, 10]

  /** A head ends at `k`: the four bytes before `k` are CR LF CR LF. */
  predicate EndsAt(s: seq<Byte>, k: nat) {
    4 <= k <= |s| && s[k - 4..k] == HEAD_END
  }

  /** Where the first head in `s` ends. */
  function FirstEnd(s: seq<Byte>): (r: Option<nat>)
    ensures r.Some? ==> EndsAt(s, r.value) && forall j | 0 <= j < r.value :: !EndsAt(s, j)
    ensures r.None? ==> forall j | 0 <= j <= |s| :: !EndsAt(s, j)
  {
    if s == [] then None else
      var front := s[..|s| - 1];
      assert forall j | 0 <= j <= |front| :: EndsAt(front, j) <==> EndsAt(s, j) by {
        assert s == front + [s[|s| - 1]];
        forall j | 0 <= j <= |front| ensures EndsAt(front, j) <==> EndsAt(s, j) {
          EndsAtPrefix(front, [s[|s| - 1]], j);
        }
      }
      match FirstEnd(front)
      case Some(k) => Some(k)
      case None => if EndsAt(s, |s|) then Some(|s|) else None
  }

  /** One stretch of HTTP output: the bytes written since a HEAD answer was announced, and
      its body. Output before the first announcement has no body. */
  datatype Exchange = Exchange(body: Option<seq<Byte>>, sent: seq<Byte>)

  /** What one exchange puts on the wire: the body once, right after the first head. */
  function Rendered(x: Exchange): seq<Byte> {
    match (x.body, FirstEnd(x.sent))
    case (Some(body), Some(k)) => x.sent[..k] + body + x.sent[k..]
    case _ => x.sent
  }

  function RenderedAll(xs: seq<Exchange>): seq<Byte> {
    if xs == [] then [] else RenderedAll(xs[..|xs| - 1]) + Rendered(xs[|xs| - 1])
  }

  lemma RenderedAllAppend(xs: seq<Exchange>, x: Exchange)
    ensures RenderedAll(xs + [x]) == RenderedAll(xs) + Rendered(x)
  {
  }

  /** A head is still being written for a known body. */
  predicate Pending(x: Exchange) {
    x.body.Some? && FirstEnd(x.sent).None?
  }

  function LastThree(s: seq<Byte>): seq<Byte> {
    if |s| <= 3 then s else s[|s| - 3..]
  }

  // ------------------------------------------------------------ the search

  /** Three bytes of history decide whether a head ends at the newest byte. */
  lemma TailSuffices(w: seq<Byte>, new_: seq<Byte>)
    requires |new_| >= 1
    ensures var s := LastThree(w) + new_; EndsAt(w + new_, |w + new_|) <==> EndsAt(s, |s|)
  {
  }

  /** The first end over a longer text, when the shorter one had none. */
  lemma FirstEndIs(s: seq<Byte>, k: nat)
    requires EndsAt(s, k) && forall j | 0 <= j < k :: !EndsAt(s, j)
    ensures FirstEnd(s) == Some(k)
  {
  }

  lemma EndsAtPrefix(s: seq<Byte>, t: seq<Byte>, j: nat)
    requires j <= |s|
    ensures EndsAt(s + t, j) <==> EndsAt(s, j)
  {
    if j >= 4 { assert (s + t)[j - 4..j] == s[j - 4..j]; }
  }

  /** Once a head has ended, more output leaves its end where it was. */
  lemma FirstEndStays(s: seq<Byte>, t: seq<Byte>)
    requires FirstEnd(s).Some?
    ensures FirstEnd(s + t) == FirstEnd(s)
  {
    forall j | 0 <= j <= |s| ensures EndsAt(s + t, j) <==> EndsAt(s, j) { EndsAtPrefix(s, t, j); }
    FirstEndIs(s + t, FirstEnd(s).value);
  }

  /** Output that is not watched goes to the wire as it is. */
  lemma RenderedAppend(x: Exchange, t: seq<Byte>)
    requires !Pending(x)
    ensures Rendered(x.(sent := x.sent + t)) == Rendered(x) + t
    ensures !Pending(x.(sent := x.sent + t))
  {
    if x.body.Some? {
      FirstEndStays(x.sent, t);
      var k := FirstEnd(x.sent).value;
      assert (x.sent + t)[..k] == x.sent[..k] && (x.sent + t)[k..] == x.sent[k..] + t;
    }
  }

  /** What a watched write of `data` means when no head ended before its last byte. */
  lemma RenderedWatched(x: Exchange, data: seq<Byte>)
    requires Pending(x)
    requires forall j | 0 <= j < |x.sent + data| :: !EndsAt(x.sent + data, j)
    ensures var y := x.(sent := x.sent + data);
            if EndsAt(y.sent, |y.sent|)
            then Rendered(y) == Rendered(x) + data + x.body.value && !Pending(y)
            else Rendered(y) == Rendered(x) + data && Pending(y)
  {
  }

  lemma LastThreeAppend(w: seq<Byte>, data: seq<Byte>)
    ensures LastThree(LastThree(w) + data) == LastThree(w + data)
  {
  }

  /** A watched write as the wrapper sees it: its tail tells whether the body is due, and
      keeps the last three bytes otherwise. */
  lemma WatchedWrite(x: Exchange, data: seq<Byte>)
    requires Pending(x) && forall j | 0 <= j < |x.sent + data| :: !EndsAt(x.sent + data, j)
    ensures var y := x.(sent := x.sent + data);
            var tail := LastThree(x.sent) + data;
            if EndsAt(tail, |tail|)
            then Rendered(y) == Rendered(x) + data + x.body.value && !Pending(y)
            else Rendered(y) == Rendered(x) + data && Pending(y) && LastThree(tail) == LastThree(y.sent)
  {
    RenderedWatched(x, data);
    LastThreeAppend(x.sent, data);
    if data == [] {
      assert x.sent + data == x.sent && LastThree(x.sent) + data == LastThree(x.sent);
    } else {
      TailSuffices(x.sent, data);
    }
  }

  // -------------------------------------------------------- the connection

  /** What one write to the socket does. */
  datatype Outcome = NotReady | Broken | Took(n: nat)

  datatype Poll = Blocked | Failed | Ready(n: nat)

  /** Writing what is owed, one socket write after another: the answer, what is left, and
      the socket's further behaviour. A write of nothing is a failure. */
  function Drained(owed: seq<Byte>, sock: seq<Outcome>): (Poll, seq<Byte>, seq<Outcome>)
    decreases |sock|
  {
    if owed == [] then (Ready(0), owed, sock)
    else if sock == [] then (Blocked, owed, sock)
    else match sock[0]
      case NotReady => (Blocked, owed, sock[1..])
      case Broken => (Failed, owed, sock[1..])
      case Took(n) => if n == 0 then (Failed, owed, sock[1..])
                      else Drained(owed[Min(n, |owed|)..], sock[1..])
  }

  function Min(a: nat, b: nat): nat {
    if a <= b then a else b
  }

  /** How much of `buf` may go out: up to the end of a pending head. */
  function Allowed(x: Exchange, buf: seq<Byte>): (n: nat)
    ensures n <= |buf|
  {
    match FirstEnd(x.sent + buf)
    case Some(k) => if Pending(x) && k >= |x.sent| then Min(k - |x.sent|, |buf|) else |buf|
    case None => |buf|
  }

  ghost predicate NoEndBefore(s: seq<Byte>, n: nat) {
    forall j | 0 <= j < n :: !EndsAt(s, j)
  }

  lemma NoneYet(x: Exchange, buf: seq<Byte>)
    requires Pending(x)
    ensures NoEndBefore(x.sent + buf, |x.sent| + 1) && LastThree(x.sent) + buf[..0] == LastThree(x.sent)
  {
    forall j | 0 <= j <= |x.sent| ensures !EndsAt(x.sent + buf, j) { EndsAtPrefix(x.sent, buf, j); }
  }

  /** The kept tail with the first `i` bytes of `buf` shows whether a head ends there. */
  lemma LimitStep(w: seq<Byte>, buf: seq<Byte>, i: nat)
    requires 1 <= i <= |buf| && NoEndBefore(w + buf, |w| + i)
    ensures var seen := LastThree(w) + buf[..i];
            EndsAt(seen, |seen|) <==> !NoEndBefore(w + buf, |w| + i + 1)
  {
    hide LastThree, EndsAt;
    TailSuffices(w, buf[..i]);
    assert w + buf == w + buf[..i] + buf[i..];
    EndsAtPrefix(w + buf[..i], buf[i..], |w| + i);
  }

  lemma LimitFound(x: Exchange, buf: seq<Byte>, i: nat)
    requires Pending(x) && 1 <= i <= |buf| && NoEndBefore(x.sent + buf, |x.sent| + i)
    requires !NoEndBefore(x.sent + buf, |x.sent| + i + 1)
    ensures Allowed(x, buf) == i && EndsAt(x.sent + buf, |x.sent| + i)
    ensures forall j | 0 <= j < |x.sent| + i :: !EndsAt(x.sent + buf, j)
  {
    hide EndsAt, FirstEnd;
    FirstEndIs(x.sent + buf, |x.sent| + i);
  }

  lemma LimitNone(x: Exchange, buf: seq<Byte>)
    requires NoEndBefore(x.sent + buf, |x.sent| + |buf| + 1)
    ensures Allowed(x, buf) == |buf|
    ensures forall j | 0 <= j < |x.sent| + |buf| :: !EndsAt(x.sent + buf, j)
  {
    hide EndsAt;
  }

  /** The answer to a write, from the exchange and what the socket does. */
  function WriteAnswer(x: Exchange, owed: seq<Byte>, buf: seq<Byte>, sock: seq<Outcome>): (r: Poll)
    ensures r.Ready? ==> r.n <= |buf|
  {
    var (p, _, rest) := Drained(owed, sock);
    if !p.Ready? then p
    else if rest == [] then Blocked
    else match rest[0]
      case NotReady => Blocked
      case Broken => Failed
      case Took(n) => Ready(Min(n, Allowed(x, buf)))
  }

  /** The exchange being written, and what is owed to the wire. */
  datatype Conn = Conn(x: Exchange, owed: seq<Byte>)

  /** The bytes of `buf` that a write reports as written. */
  function Taken(c: Conn, buf: seq<Byte>, sock: seq<Outcome>): seq<Byte> {
    var r := WriteAnswer(c.x, c.owed, buf, sock);
    if r.Ready? then buf[..r.n] else []
  }

  /** A write: the bytes taken join the exchange, and the body is owed once they end a head. */
  function AfterWrite(c: Conn, buf: seq<Byte>, sock: seq<Outcome>): Conn {
    var y := c.x.(sent := c.x.sent + Taken(c, buf, sock));
    if !WriteAnswer(c.x, c.owed, buf, sock).Ready? then Conn(c.x, Drained(c.owed, sock).1)
    else Conn(y, if Pending(c.x) && !Pending(y) then c.x.body.value else [])
  }

  type Write = (seq<Byte>, seq<Outcome>)

  function AfterWrites(c: Conn, writes: seq<Write>): Conn {
    if writes == [] then c else
      var last := writes[|writes| - 1];
      AfterWrite(AfterWrites(c, writes[..|writes| - 1]), last.0, last.1)
  }

  /** A writer that offers, at every write, some of what is not yet written of `out`. */
  ghost predicate Resubmits(c: Conn, out: seq<Byte>, writes: seq<Write>) {
    writes == [] ||
    var front := writes[..|writes| - 1];
    var before := AfterWrites(c, front).x.sent;
    Resubmits(c, out, front) && before + writes[|writes| - 1].0 <= out
  }

  /** Such a writer puts in exactly the bytes of `out`, from the first on. */
  lemma {:induction false} ResubmittedIsPrefix(c: Conn, out: seq<Byte>, writes: seq<Write>)
    requires c.x.sent <= out && Resubmits(c, out, writes)
    ensures AfterWrites(c, writes).x.sent <= out
  {
    if writes != [] {
      ResubmittedIsPrefix(c, out, writes[..|writes| - 1]);
    }
  }

  /** A socket that takes anything moves a write on: with nothing owed, a non-empty write is
      answered with at least one byte. */
  lemma WriteMoves(c: Conn, buf: seq<Byte>, sock: seq<Outcome>)
    requires c.owed == [] && buf != [] && sock != [] && sock[0].Took? && sock[0].n > 0
    ensures |AfterWrite(c, buf, sock).x.sent| > |c.x.sent|
  {
    if Pending(c.x) {
      forall j | 0 <= j <= |c.x.sent| ensures !EndsAt(c.x.sent + buf, j) { EndsAtPrefix(c.x.sent, buf, j); }
    }
  }

  class HeadBodyIo {
    var wire: seq<Byte>
    var body: Option<seq<Byte>>
    var owed: seq<Byte>
    var tail: seq<Byte>
    /** The exchanges that are over, and the one being written. */
    ghost var past: seq<Exchange>
    ghost var current: Exchange

    ghost predicate Watching()
      reads this
    {
      if Pending(current)
      then body == current.body && tail == LastThree(current.sent) && (current.sent == [] || owed == [])
      else body.None? && tail == []
    }

    ghost predicate Valid()
      reads this
    {
      wire + owed == RenderedAll(past) + Rendered(current) && Watching()
    }

    constructor ()
      ensures Valid() && wire == [] && past == [] && current == Exchange(None, [])
    {
      wire, owed, tail, body := [], [], [], None;
      past, current := [], Exchange(None, []);
    }

    /** The service announces the body of a HEAD answer whose head is about to be written. */
    method Announce(b: seq<Byte>)
      requires Valid()
      modifies this`body, this`past, this`current
      ensures Valid() && body == Some(b)
      ensures if old(Pending(current))
              then past == old(past) && current == old(current).(body := Some(b))
              else past == old(past) + [old(current)] && current == Exchange(Some(b), [])
    {
      body := Some(b);
      if Pending(current) {
        current := current.(body := Some(b));
      } else {
        past := past + [current];
        current := Exchange(Some(b), []);
        assert past[..|past| - 1] == old(past);
      }
    }

    /** Write what is owed. `sock` lists what the socket does, one entry a write; the rest
        is handed back. */
    method PollOwed(sock: seq<Outcome>) returns (r: Poll, rest: seq<Outcome>)
      requires Valid()
      modifies this`wire, this`owed
      ensures Valid() && old(wire) <= wire
      ensures (r, owed, rest) == Drained(old(owed), sock)
      ensures r.Ready? <==> owed == []
    {
      hide Rendered, RenderedAll, Pending, LastThree;
      rest := sock;
      while owed != []
        invariant old(wire) <= wire && wire + owed == old(wire + owed)
        invariant owed == [] || old(owed) != []
        invariant Drained(owed, rest) == Drained(old(owed), sock)
        decreases |rest|
      {
        if rest == [] || rest[0].NotReady? {
          return Blocked, if rest == [] then [] else rest[1..];
        }
        if rest[0].Broken? {
          return Failed, rest[1..];
        }
        var n := Min(rest[0].n, |owed|);
        rest := rest[1..];
        if n == 0 {
          return Failed, rest;
        }
        assert owed == owed[..n] + owed[n..];
        wire, owed := wire + owed[..n], owed[n..];
      }
      r := Ready(0);
    }

    /** How much of `buf` may be written before a pending body is due. */
    method Limit(buf: seq<Byte>) returns (limit: nat)
      requires Watching() && Pending(current)
      ensures limit <= |buf| && limit == Allowed(current, buf)
      ensures forall j | 0 <= j < |current.sent| + limit :: !EndsAt(current.sent + buf, j)
      ensures limit == |buf| || EndsAt(current.sent + buf, |current.sent| + limit)
    {
      hide EndsAt, LastThree, Allowed, FirstEnd;
      var seen := tail;
      ghost var w := current.sent;
      NoneYet(current, buf);
      var i := 0;
      while i < |buf|
        invariant 0 <= i <= |buf|
        invariant seen == LastThree(w) + buf[..i]
        invariant NoEndBefore(w + buf, |w| + i + 1)
      {
        seen := seen + [buf[i]];
        i := i + 1;
        assert seen == LastThree(w) + buf[..i];
        LimitStep(w, buf, i);
        if EndsAt(seen, |seen|) {
          LimitFound(current, buf, i);
          return i;
        }
      }
      LimitNone(current, buf);
      limit := |buf|;
    }

    /** Note `data`, the part of a watched write that the socket took. */
    method Watched(data: seq<Byte>)
      requires Watching() && Pending(current) && owed == []
      requires wire == RenderedAll(past) + Rendered(current) + data
      requires forall j | 0 <= j < |current.sent + data| :: !EndsAt(current.sent + data, j)
      modifies this`owed, this`tail, this`body, this`current
      ensures Valid() && current == old(current).(sent := old(current).sent + data)
      ensures owed == if Pending(current) then [] else old(current).body.value
    {
      hide EndsAt, Rendered, RenderedAll, LastThree, FirstEnd;
      ghost var x := current;
      WatchedWrite(x, data);
      tail := tail + data;
      if EndsAt(tail, |tail|) {
        tail := [];
        owed := owed + body.value;
        body := None;
      } else {
        tail := LastThree(tail);
      }
      current := x.(sent := x.sent + data);
      assert wire + owed == RenderedAll(past) + Rendered(current);
    }

    /** One write by the HTTP layer. A ready answer tells how many bytes of `buf` it may
        consider written; only those join the exchange, and nothing else does. */
    method PollWrite(buf: seq<Byte>, sock: seq<Outcome>) returns (r: Poll)
      requires Valid()
      modifies this`wire, this`owed, this`tail, this`body, this`current
      ensures Valid() && old(wire) <= wire
      ensures r == WriteAnswer(old(current), old(owed), buf, sock)
      ensures r.Ready? ==> r.n <= |buf|
      ensures current == if r.Ready? then old(current).(sent := old(current).sent + buf[..r.n]) else old(current)
      ensures Conn(current, owed) == AfterWrite(old(Conn(current, owed)), buf, sock)
    {
      hide Rendered, RenderedAll, EndsAt, LastThree;
      ghost var x := current;
      var rest;
      r, rest := PollOwed(sock);
      if !r.Ready? {
        return r;
      }
      if rest == [] || rest[0].NotReady? {
        return Blocked;
      }
      if rest[0].Broken? {
        return Failed;
      }
      assert wire == RenderedAll(past) + Rendered(x) by { assert wire + owed == wire; }
      if body.None? {
        var n := Min(rest[0].n, |buf|);
        RenderedAppend(x, buf[..n]);
        wire := wire + buf[..n];
        current := x.(sent := x.sent + buf[..n]);
        assert wire == RenderedAll(past) + Rendered(current);
        return Ready(n);
      }
      var limit := Limit(buf);
      var n := Min(rest[0].n, limit);
      forall j | 0 <= j < |x.sent + buf[..n]| ensures !EndsAt(x.sent + buf[..n], j) {
        assert x.sent + buf == x.sent + buf[..n] + buf[n..];
        EndsAtPrefix(x.sent + buf[..n], buf[n..], j);
      }
      wire := wire + buf[..n];
      Watched(buf[..n]);
      r := Ready(n);
    }

    /** A flush or a shutdown succeeds only when the wire shows every exchange in full. */
    method PollFlush(sock: seq<Outcome>) returns (r: Poll)
      requires Valid()
      modifies this`wire, this`owed
      ensures Valid() && old(wire) <= wire
      ensures r == Drained(old(owed), sock).0
      ensures r.Ready? ==> wire == RenderedAll(past) + Rendered(current)
    {
      var rest;
      r, rest := PollOwed(sock);
    }

    /** A HEAD answer: whatever the HTTP layer writes in whatever pieces, and whatever the
        socket does with each. The accepted bytes are those the answers to the writes report,
        and the wire and what is owed to it show everything before the answer, then these
        bytes with the body right after the first head. */
    method HeadAnswer(b: seq<Byte>, writes: seq<Write>) returns (accepted: seq<Byte>)
      requires Valid() && !Pending(current)
      modifies this
      ensures Valid() && old(wire) <= wire
      ensures var c := AfterWrites(Conn(Exchange(Some(b), []), old(owed)), writes);
              accepted == c.x.sent && Conn(current, owed) == c && c.x.body == Some(b)
      ensures RenderedAll(past) == old(wire + owed)
      ensures wire + owed == old(wire + owed) + Rendered(Exchange(Some(b), accepted))
    {
      hide Rendered, RenderedAll, LastThree, FirstEnd, AfterWrite;
      Announce(b);
      ghost var before, start := past, Conn(current, owed);
      assert RenderedAll(before) == old(wire + owed) by { RenderedAllAppend(old(past), old(current)); }
      accepted := [];
      var i := 0;
      assert writes[..0] == [];
      while i < |writes|
        invariant 0 <= i <= |writes|
        invariant Valid() && old(wire) <= wire && past == before && current == Exchange(Some(b), accepted)
        invariant Conn(current, owed) == AfterWrites(start, writes[..i])
      {
        assert writes[..i + 1][..i] == writes[..i];
        var r := PollWrite(writes[i].0, writes[i].1);
        if r.Ready? {
          accepted := accepted + writes[i].0[..r.n];
        }
        i := i + 1;
      }
      assert writes[..i] == writes;
    }

    /** A HEAD answer whose output is `out`, from a layer that offers again what was not
        written. Whatever the pieces and the short writes, what was accepted is a prefix of
        `out`; once that is all of it and the flush is ready, the wire is what it was to be
        before, then `out` with the body once, right after its first head. */
    method WholeAnswer(b: seq<Byte>, out: seq<Byte>, writes: seq<Write>, flush: seq<Outcome>)
      returns (accepted: seq<Byte>, r: Poll)
      requires Valid() && !Pending(current)
      requires Resubmits(Conn(Exchange(Some(b), []), owed), out, writes)
      modifies this
      ensures Valid() && old(wire) <= wire
      ensures var c := AfterWrites(Conn(Exchange(Some(b), []), old(owed)), writes);
              accepted == c.x.sent && r == Drained(c.owed, flush).0
      ensures accepted <= out
      ensures r.Ready? && accepted == out ==>
                wire == old(wire + owed) + match FirstEnd(out)
                                           case Some(k) => out[..k] + b + out[k..]
                                           case None => out
    {
      hide AfterWrites, RenderedAll, LastThree, FirstEnd, Resubmits;
      ResubmittedIsPrefix(Conn(Exchange(Some(b), []), owed), out, writes);
      accepted := HeadAnswer(b, writes);
      r := PollFlush(flush);
    }
  }
}
