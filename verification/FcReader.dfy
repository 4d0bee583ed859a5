/** The level-limited reader: a cursor over the bytes and a nesting level, in place of fc's
    depth budget. Every method is proved against the budgeted grammar of `FcJson`. */
module FcReader {
  import opened Options
  import opened Bytes
  import opened FcJson

  /** The level at which a container may no longer hold anything. */
  const FULL_LEVEL: nat := 100

  class Reader {
    const bytes: seq<Byte>
    var pos: nat

    ghost predicate Valid()
      reads this
    {
      pos <= |bytes|
    }

    constructor (bytes: seq<Byte>)
      ensures this.bytes == bytes && pos == 0 && Valid()
    {
      this.bytes := bytes;
      pos := 0;
    }

    function Peek(): Option<Byte>
      requires Valid()
      reads this
    {
      if pos < |bytes| then Some(bytes[pos]) else None
    }

    method Bump() returns (r: Option<Byte>)
      requires Valid()
      modifies this`pos
      ensures Valid() && r == old(Peek()) && pos == old(pos) + if r.Some? then 1 else 0
    {
      r := Peek();
      if r.Some? {
        pos := pos + 1;
      }
    }

    method SkipWs(commas: bool)
      requires Valid()
      modifies this`pos
      ensures Valid() && pos == Skip(bytes, old(pos), commas)
    {
      while pos < |bytes| && (IsWs(bytes[pos]) || (commas && bytes[pos] == COMMA))
        invariant Valid() && Skip(bytes, pos, commas) == Skip(bytes, old(pos), commas)
      {
        pos := pos + 1;
      }
    }

    /** What a method returned and where it left the cursor, as the grammar says it. */
    ghost predicate Reads<T>(r: Option<T>, expected: Parsed<T>)
      reads this
    {
      match r
      case None => expected.Fail?
      case Some(v) => expected == Got(v, pos)
    }

    method Value(depth: nat) returns (r: Option<FcJson.Value>)
      requires Valid() && depth < FULL_LEVEL
      modifies this`pos
      ensures Valid() && Reads(r, ValueAt(bytes, old(pos), FC_BUDGET - 2 * depth))
      decreases |bytes| - pos, 1
    {
      hide Skip, MembersFrom, ArrayFrom, StringFrom, FcJson.Number, FcJson.Keyword;
      SkipWs(false);
      var next := Peek();
      if next.None? {
        return None;
      }
      if next.value == OPEN_BRACE {
        r := Object(depth + 1);
      } else if next.value == OPEN_BRACKET {
        r := Array(depth + 1);
      } else if next.value == QUOTE {
        var s := String();
        r := if s.Some? then Some(Str(s.value)) else None;
      } else if next.value == MINUS || IsDigit(next.value) {
        r := Number();
      } else {
        r := Keyword();
      }
    }

    /** An object at nesting level `depth`. */
    method Object(depth: nat) returns (r: Option<FcJson.Value>)
      requires pos < |bytes| && 1 <= depth <= FULL_LEVEL
      modifies this`pos
      ensures Valid() && Reads(r, MembersFrom(bytes, old(pos) + 1, FC_BUDGET + 1 - 2 * depth, []))
      decreases |bytes| - pos, 0
    {
      hide KeyAt, ValueAt, Skip, MembersFrom;
      pos := pos + 1;
      var members := [];
      ghost var budget := FC_BUDGET + 1 - 2 * depth;
      ghost var whole := MembersFrom(bytes, pos, budget, []);
      while true
        invariant old(pos) < pos <= |bytes|
        invariant MembersFrom(bytes, pos, budget, members) == whole
        decreases |bytes| - pos
      {
        MembersStep(bytes, pos, budget, members);
        SkipWs(true);
        var next := Peek();
        if next.None? {
          return None;
        }
        if next.value == CLOSE_BRACE {
          pos := pos + 1;
          return Some(FcJson.Value.Object(members));
        }
        var key := Key();
        if key.None? {
          return None;
        }
        if depth >= FULL_LEVEL {
          NoBudget(bytes, pos);
          return None;
        }
        var v := Value(depth);
        if v.None? {
          return None;
        }
        members := members + [(key.value, v.value)];
      }
    }

    /** A member's key and the colon after it. */
    method Key() returns (r: Option<seq<Byte>>)
      requires pos < |bytes|
      modifies this`pos
      ensures Valid() && Reads(r, KeyAt(bytes, old(pos)))
    {
      if bytes[pos] != QUOTE {
        return None;
      }
      r := String();
      if r.None? {
        return None;
      }
      SkipWs(false);
      var colon := Bump();
      if colon != Some(COLON) {
        return None;
      }
    }

    /** An array at nesting level `depth`. */
    method Array(depth: nat) returns (r: Option<FcJson.Value>)
      requires pos < |bytes| && 1 <= depth <= FULL_LEVEL
      modifies this`pos
      ensures Valid() && Reads(r, ArrayFrom(bytes, old(pos) + 1, FC_BUDGET + 1 - 2 * depth))
      decreases |bytes| - pos, 0
    {
      hide ValueAt, Skip, ArrayFrom, ItemsFrom;
      pos := pos + 1;
      ghost var budget := FC_BUDGET + 1 - 2 * depth;
      ArrayStart(bytes, pos, budget);
      SkipWs(false);
      var next := Peek();
      if next.None? {
        return None;
      }
      if next.value == CLOSE_BRACKET {
        pos := pos + 1;
        return Some(FcJson.Value.Array([]));
      }
      if depth >= FULL_LEVEL {
        NoBudget(bytes, pos);
        ItemsStep(bytes, pos, budget, []);
        return None;
      }
      var items := [];
      ghost var whole := ArrayFrom(bytes, old(pos) + 1, budget);
      while true
        invariant old(pos) < pos <= |bytes|
        invariant ItemsFrom(bytes, pos, budget, items) == whole
        decreases |bytes| - pos
      {
        ItemsStep(bytes, pos, budget, items);
        var v := Value(depth);
        if v.None? {
          return None;
        }
        items := items + [v.value];
        SkipWs(false);
        next := Bump();
        if next == Some(CLOSE_BRACKET) {
          return Some(FcJson.Value.Array(items));
        }
        if next != Some(COMMA) {
          return None;
        }
      }
    }

    method String() returns (r: Option<seq<Byte>>)
      requires pos < |bytes|
      modifies this`pos
      ensures Valid() && Reads(r, StringFrom(bytes, old(pos) + 1))
    {
      pos := pos + 1;
      var out := [];
      ghost var start := pos;
      JoinedNone(StringFrom(bytes, pos));
      while true
        invariant start <= pos <= |bytes|
        invariant StringFrom(bytes, start) == Joined(out, StringFrom(bytes, pos))
        decreases |bytes| - pos
      {
        JoinedPrepend(out, bytes, pos);
        var b := Bump();
        if b.None? {
          return None;
        }
        if b.value == QUOTE {
          return Some(out);
        }
        if b.value == BACKSLASH {
          var e := Bump();
          if e.None? {
            return None;
          }
          out := out + [Unescape(e.value)];
        } else if b.value == EOT {
          return None;
        } else {
          out := out + [b.value];
        }
      }
    }

    /** The run of digits at the cursor, and its value. */
    method Digits() returns (end: nat, n: nat)
      requires Valid()
      ensures end == DigitsEnd(bytes, pos) && n == Decimal(bytes[pos..end])
    {
      end, n := pos, 0;
      ghost var last := DigitsEnd(bytes, pos);
      while end < |bytes| && IsDigit(bytes[end])
        invariant pos <= end <= |bytes|
        invariant DigitsEnd(bytes, end) == last
        invariant forall i | pos <= i < end :: IsDigit(bytes[i])
        invariant n == Decimal(bytes[pos..end])
      {
        assert bytes[pos..end + 1][..end - pos] == bytes[pos..end];
        n := n * 10 + (bytes[end] as int - 48);
        end := end + 1;
      }
    }

    method Number() returns (r: Option<FcJson.Value>)
      requires pos < |bytes|
      modifies this`pos
      ensures Valid() && Reads(r, FcJson.Number(bytes, old(pos)))
    {
      var negative := bytes[pos] == MINUS;
      if negative {
        pos := pos + 1;
      }
      var digits, n := pos, 0;
      pos, n := Digits();
      if pos == digits || (pos < |bytes| && (IsAlnum(bytes[pos]) || bytes[pos] == 46)) {
        return None;
      }
      if negative {
        r := if -(n as int) < I64_MIN then None else Some(I64(-(n as int)));
      } else {
        r := if n > U64_MAX then None else Some(U64(n));
      }
    }

    method Keyword() returns (r: Option<FcJson.Value>)
      requires Valid()
      modifies this`pos
      ensures Valid() && Reads(r, FcJson.Keyword(bytes, old(pos)))
    {
      var rest := bytes[pos..];
      var len;
      if TRUE <= rest {
        len, r := 4, Some(Bool(true));
      } else if FALSE <= rest {
        len, r := 5, Some(Bool(false));
      } else if NULL <= rest {
        len, r := 4, Some(Null);
      } else {
        return None;
      }
      if len < |rest| && IsAlnum(rest[len]) {
        return None;
      }
      pos := pos + len;
    }
  }

  /** The members of a request body's top-level object. */
  method ParseParams(body: seq<Byte>) returns (r: Option<seq<(seq<Byte>, FcJson.Value)>>)
    ensures r == match FcParams(body)
                 case Got(Object(members), _) => Some(members)
                 case _ => None
  {
    var reader := new Reader(body);
    reader.SkipWs(false);
    var next := reader.Peek();
    if next != Some(OPEN_BRACE) {
      return None;
    }
    var v := reader.Value(0);
    match v
    case Some(Object(members)) => r := Some(members);
    case _ => r := None;
  }

  // --------------------------------------------------------------- helpers

  function Joined(out: seq<Byte>, rest: Parsed<seq<Byte>>): Parsed<seq<Byte>> {
    match rest
    case Fail => Fail
    case Got(t, p) => Got(out + t, p)
  }

  lemma JoinedNone(rest: Parsed<seq<Byte>>)
    ensures Joined([], rest) == rest
  {
    if rest.Got? { assert [] + rest.value == rest.value; }
  }

  /** One more byte of a string moves from the unread part to the read part. */
  lemma JoinedPrepend(out: seq<Byte>, s: seq<Byte>, pos: nat)
    requires pos <= |s|
    ensures pos < |s| && s[pos] == QUOTE ==> Joined(out, StringFrom(s, pos)) == Got(out, pos + 1)
    ensures pos + 1 < |s| && s[pos] == BACKSLASH ==>
              Joined(out, StringFrom(s, pos)) == Joined(out + [Unescape(s[pos + 1])], StringFrom(s, pos + 2))
    ensures pos < |s| && s[pos] != QUOTE && s[pos] != BACKSLASH && s[pos] != EOT ==>
              Joined(out, StringFrom(s, pos)) == Joined(out + [s[pos]], StringFrom(s, pos + 1))
  {
    assert out + [] == out;
    if pos < |s| {
      var next := if s[pos] == BACKSLASH then pos + 2 else pos + 1;
      if next <= |s| && s[pos] != QUOTE && s[pos] != EOT {
        var b := if s[pos] == BACKSLASH then Unescape(s[pos + 1]) else s[pos];
        var rest := StringFrom(s, next);
        if rest.Got? { assert out + ([b] + rest.value) == (out + [b]) + rest.value; }
      }
    }
  }

  lemma NoBudget(s: seq<Byte>, pos: nat)
    requires pos <= |s|
    ensures ValueAt(s, pos, 0).Fail?
  {
  }

  /** What the reader accepts: exactly what a reader of any number `m` of levels (at least
      100) accepts and that fits 100 levels, so nothing it returns is nested deeper than
      100 or holds anything in a container on level 100. */
  lemma LevelLimitExact(body: seq<Byte>, m: nat)
    requires m >= FULL_LEVEL
    ensures var p := Skip(body, 0, false);
            p < |body| && body[p] == OPEN_BRACE ==> Cut(FcParams(body), ValueAt(body, p, 2 * m), FULL_LEVEL)
  {
    ValueCut(body, Skip(body, 0, false), FULL_LEVEL, m);
  }
}
