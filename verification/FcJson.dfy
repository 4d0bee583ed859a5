/** fc's JSON reading as a depth-budgeted grammar over bytes.

    A value is read with a budget of units. Entering a container costs one unit and each
    value inside it another, and a value read with no units left fails. */
module FcJson {
  import opened Bytes

  /** A JSON value as fc reads it. Members keep their order and their duplicates. */
  datatype Value =
    | Null
    | Bool(b: bool)
    | U64(u: nat)
    | I64(i: int)
    | Str(s: seq<Byte>)
    | Array(items: seq<Value>)
    | Object(members: seq<(seq<Byte>, Value)>)

  datatype Parsed<+T> = Fail | Got(value: T, pos: nat)

  const U64_MAX: nat := 18_446_744_073_709_551_615
  const I64_MIN: int := -9_223_372_036_854_775_808

  const QUOTE: Byte := 34
  const BACKSLASH: Byte := 92
  const COMMA: Byte := 44
  const COLON: Byte := 58
  const MINUS: Byte := 45
  const OPEN_BRACE: Byte := 123
  const CLOSE_BRACE: Byte := 125
  const OPEN_BRACKET: Byte := 91
  const CLOSE_BRACKET: Byte := 93
  const EOT: Byte := 4
  const TAB: Byte := 9
  const LF: Byte := 10
  const CR: Byte := 13

  predicate IsWs(b: Byte) { b == 32 || b == TAB || b == LF || b == CR }

  predicate IsDigit(b: Byte) { 48 <= b <= 57 }

  predicate IsAlnum(b: Byte) { IsDigit(b) || 65 <= b <= 90 || 97 <= b <= 122 }

  /** The first position from `pos` on that holds no whitespace (or comma, if `commas`). */
  function Skip(s: seq<Byte>, pos: nat, commas: bool): (r: nat)
    requires pos <= |s|
    ensures pos <= r <= |s|
    ensures forall i | pos <= i < r :: IsWs(s[i]) || (commas && s[i] == COMMA)
    ensures r < |s| ==> !IsWs(s[r]) && !(commas && s[r] == COMMA)
    decreases |s| - pos
  {
    if pos < |s| && (IsWs(s[pos]) || (commas && s[pos] == COMMA)) then Skip(s, pos + 1, commas) else pos
  }

  // --------------------------------------------------------------- strings

  function Unescape(b: Byte): Byte {
    if b == 116 then TAB else if b == 110 then LF else if b == 114 then CR else b
  }

  function Prepend(b: Byte, rest: Parsed<seq<Byte>>): Parsed<seq<Byte>> {
    match rest
    case Fail => Fail
    case Got(t, p) => Got([b] + t, p)
  }

  /** The rest of a string, from just after its opening quote. */
  function StringFrom(s: seq<Byte>, pos: nat): (r: Parsed<seq<Byte>>)
    requires pos <= |s|
    ensures r.Got? ==> pos < r.pos <= |s|
    decreases |s| - pos
  {
    if pos == |s| then Fail
    else if s[pos] == QUOTE then Got([], pos + 1)
    else if s[pos] == BACKSLASH then
      if pos + 1 == |s| then Fail else Prepend(Unescape(s[pos + 1]), StringFrom(s, pos + 2))
    else if s[pos] == EOT then Fail
    else Prepend(s[pos], StringFrom(s, pos + 1))
  }

  // ---------------------------------------------------- numbers and keywords

  function DigitsEnd(s: seq<Byte>, pos: nat): (r: nat)
    requires pos <= |s|
    ensures pos <= r <= |s|
    ensures forall i | pos <= i < r :: IsDigit(s[i])
    ensures r < |s| ==> !IsDigit(s[r])
    decreases |s| - pos
  {
    if pos < |s| && IsDigit(s[pos]) then DigitsEnd(s, pos + 1) else pos
  }

  function Decimal(digits: seq<Byte>): nat
    requires forall i | 0 <= i < |digits| :: IsDigit(digits[i])
  {
    if digits == [] then 0 else
      assert IsDigit(digits[|digits| - 1]);
      Decimal(digits[..|digits| - 1]) * 10 + (digits[|digits| - 1] as int - 48)
  }

  /** An integer: a negative one as 64-bit signed, any other as 64-bit unsigned. */
  function Number(s: seq<Byte>, pos: nat): (r: Parsed<Value>)
    requires pos < |s|
    ensures r.Got? ==> pos < r.pos <= |s|
  {
    var negative := s[pos] == MINUS;
    var start := if negative then pos + 1 else pos;
    var end := DigitsEnd(s, start);
    if end == start || (end < |s| && (IsAlnum(s[end]) || s[end] == 46)) then Fail
    else
      var n: int := Decimal(s[start..end]);
      if negative then (if -n < I64_MIN then Fail else Got(I64(-n), end))
      else if n > U64_MAX then Fail else Got(U64(n), end)
  }

  const TRUE: seq<Byte> := [116, 114, 117, 101]
  const FALSE: seq<Byte> := [102, 97, 108, 115, 101]
  const NULL: seq<Byte> := [110, 117, 108, 108]

  function Keyword(s: seq<Byte>, pos: nat): (r: Parsed<Value>)
    requires pos <= |s|
    ensures r.Got? ==> pos < r.pos <= |s|
  {
    var rest := s[pos..];
    var found := if TRUE <= rest then Got(Bool(true), pos + 4)
                 else if FALSE <= rest then Got(Bool(false), pos + 5)
                 else if NULL <= rest then Got(Null, pos + 4)
                 else Fail;
    if found.Got? && found.pos < |s| && IsAlnum(s[found.pos]) then Fail else found
  }

  // ------------------------------------------------------ values by budget

  function ValueAt(s: seq<Byte>, pos: nat, budget: int): (r: Parsed<Value>)
    requires pos <= |s|
    ensures r.Got? ==> pos < r.pos <= |s|
    decreases |s| - pos, 0
  {
    var p := Skip(s, pos, false);
    if budget <= 0 || p == |s| then Fail
    else if s[p] == OPEN_BRACE then MembersFrom(s, p + 1, budget - 1, [])
    else if s[p] == OPEN_BRACKET then ArrayFrom(s, p + 1, budget - 1)
    else if s[p] == QUOTE then
      match StringFrom(s, p + 1)
      case Fail => Fail
      case Got(t, q) => Got(Str(t), q)
    else if s[p] == MINUS || IsDigit(s[p]) then Number(s, p)
    else Keyword(s, p)
  }

  /** A key and its colon. */
  function KeyAt(s: seq<Byte>, pos: nat): (r: Parsed<seq<Byte>>)
    requires pos < |s|
    ensures r.Got? ==> pos < r.pos <= |s|
  {
    if s[pos] != QUOTE then Fail else
      match StringFrom(s, pos + 1)
      case Fail => Fail
      case Got(key, q) =>
        var c := Skip(s, q, false);
        if c < |s| && s[c] == COLON then Got(key, c + 1) else Fail
  }

  /** The rest of an object that already has members `acc`. Any number of commas may
      separate members. */
  function MembersFrom(s: seq<Byte>, pos: nat, budget: int, acc: seq<(seq<Byte>, Value)>): (r: Parsed<Value>)
    requires pos <= |s|
    ensures r.Got? ==> pos < r.pos <= |s| && r.value.Object?
    decreases |s| - pos, 2
  {
    var p := Skip(s, pos, true);
    if p == |s| then Fail
    else if s[p] == CLOSE_BRACE then Got(Object(acc), p + 1)
    else
      match KeyAt(s, p)
      case Fail => Fail
      case Got(key, c) =>
        match ValueAt(s, c, budget - 1)
        case Fail => Fail
        case Got(v, q) => MembersFrom(s, q, budget, acc + [(key, v)])
  }

  function ArrayFrom(s: seq<Byte>, pos: nat, budget: int): (r: Parsed<Value>)
    requires pos <= |s|
    ensures r.Got? ==> pos < r.pos <= |s| && r.value.Array?
    decreases |s| - pos, 2
  {
    var p := Skip(s, pos, false);
    if p == |s| then Fail
    else if s[p] == CLOSE_BRACKET then Got(Array([]), p + 1)
    else ItemsFrom(s, p, budget, [])
  }

  /** The rest of an array that already has items `acc`, at the start of an item. */
  function ItemsFrom(s: seq<Byte>, pos: nat, budget: int, acc: seq<Value>): (r: Parsed<Value>)
    requires pos <= |s|
    ensures r.Got? ==> pos < r.pos <= |s| && r.value.Array?
    decreases |s| - pos, 1
  {
    match ValueAt(s, pos, budget - 1)
    case Fail => Fail
    case Got(v, q) =>
      var c := Skip(s, q, false);
      if c == |s| then Fail
      else if s[c] == COMMA then ItemsFrom(s, c + 1, budget, acc + [v])
      else if s[c] == CLOSE_BRACKET then Got(Array(acc + [v]), c + 1)
      else Fail
  }

  lemma MembersStep(s: seq<Byte>, pos: nat, budget: int, acc: seq<(seq<Byte>, Value)>)
    requires pos <= |s|
    ensures var p := Skip(s, pos, true);
            MembersFrom(s, pos, budget, acc) ==
              if p == |s| then Fail
              else if s[p] == CLOSE_BRACE then Got(Object(acc), p + 1)
              else match KeyAt(s, p)
                case Fail => Fail
                case Got(key, c) =>
                  match ValueAt(s, c, budget - 1)
                  case Fail => Fail
                  case Got(v, q) => MembersFrom(s, q, budget, acc + [(key, v)])
  {
  }

  lemma ArrayStart(s: seq<Byte>, pos: nat, budget: int)
    requires pos <= |s|
    ensures var p := Skip(s, pos, false);
            ArrayFrom(s, pos, budget) ==
              if p == |s| then Fail else if s[p] == CLOSE_BRACKET then Got(Array([]), p + 1)
              else ItemsFrom(s, p, budget, [])
  {
  }

  lemma ItemsStep(s: seq<Byte>, pos: nat, budget: int, acc: seq<Value>)
    requires pos <= |s|
    ensures ItemsFrom(s, pos, budget, acc) ==
              match ValueAt(s, pos, budget - 1)
              case Fail => Fail
              case Got(v, q) =>
                var c := Skip(s, q, false);
                if c == |s| then Fail
                else if s[c] == COMMA then ItemsFrom(s, c + 1, budget, acc + [v])
                else if s[c] == CLOSE_BRACKET then Got(Array(acc + [v]), c + 1)
                else Fail
  {
  }

  /** The budget fc starts with. */
  const FC_BUDGET := 200

  /** The members of the top-level object; bytes after it are ignored. */
  function FcParams(s: seq<Byte>): Parsed<Value> {
    var p := Skip(s, 0, false);
    if p < |s| && s[p] == OPEN_BRACE then ValueAt(s, p, FC_BUDGET) else Fail
  }

  // ----------------------------------------------------------- the levels

  /** A value that needs at most `n` levels, itself on the first. With no level left there
      is no value at all, so a container on the last level is empty. */
  predicate WithinLevels(v: Value, n: nat) {
    && n >= 1
    && match v
       case Array(items) => forall x | x in items :: WithinLevels(x, n - 1)
       case Object(members) => forall m | m in members :: WithinLevels(m.1, n - 1)
       case _ => true
  }

  /** Cutting a parse with many levels off at `n`: the same value when it fits. */
  ghost predicate Cut(few: Parsed<Value>, many: Parsed<Value>, n: nat) {
    if many.Got? && WithinLevels(many.value, n) then few == many else few.Fail?
  }

  lemma {:induction false} ValueCut(s: seq<Byte>, pos: nat, n: nat, m: nat)
    requires pos <= |s| && n <= m
    ensures Cut(ValueAt(s, pos, 2 * n), ValueAt(s, pos, 2 * m), n)
    decreases |s| - pos, 0
  {
    hide Skip, MembersFrom, ItemsFrom, ArrayFrom, StringFrom, DigitsEnd, Decimal, WithinLevels;
    var p := Skip(s, pos, false);
    FlatFits(n);
    if n > 0 && p < |s| {
      if s[p] == OPEN_BRACE {
        MembersCut(s, p + 1, n, m, []);
      } else if s[p] == OPEN_BRACKET {
        ArrayStart(s, p + 1, 2 * n - 1);
        ArrayStart(s, p + 1, 2 * m - 1);
        var q := Skip(s, p + 1, false);
        if q < |s| && s[q] != CLOSE_BRACKET {
          ItemsCut(s, q, n, m, []);
        }
      }
    }
  }

  lemma {:induction false} MembersCut(s: seq<Byte>, pos: nat, n: nat, m: nat, acc: seq<(seq<Byte>, Value)>)
    requires pos <= |s| && 0 < n <= m
    requires forall x | x in acc :: WithinLevels(x.1, n - 1)
    ensures Cut(MembersFrom(s, pos, 2 * n - 1, acc), MembersFrom(s, pos, 2 * m - 1, acc), n)
    decreases |s| - pos, 2
  {
    hide Skip, KeyAt, ValueAt, MembersFrom, WithinLevels;
    MembersStep(s, pos, 2 * n - 1, acc);
    MembersStep(s, pos, 2 * m - 1, acc);
    var p := Skip(s, pos, true);
    if p < |s| && s[p] == CLOSE_BRACE { WithinObject(acc, n); }
    if p < |s| && s[p] != CLOSE_BRACE && KeyAt(s, p).Got? {
      var key, c := KeyAt(s, p).value, KeyAt(s, p).pos;
      ValueCut(s, c, n - 1, m - 1);
      var few, many := ValueAt(s, c, 2 * n - 2), ValueAt(s, c, 2 * m - 2);
      if few.Got? {
        MembersCut(s, few.pos, n, m, acc + [(key, few.value)]);
      } else if many.Got? {
        var next := acc + [(key, many.value)];
        MembersKeep(s, many.pos, 2 * m - 1, next);
        assert (key, many.value) in next;
        var r := MembersFrom(s, many.pos, 2 * m - 1, next);
        if r.Got? { WithinObject(r.value.members, n); }
      }
    }
  }

  lemma {:induction false} ItemsCut(s: seq<Byte>, pos: nat, n: nat, m: nat, acc: seq<Value>)
    requires pos <= |s| && 0 < n <= m
    requires forall x | x in acc :: WithinLevels(x, n - 1)
    ensures Cut(ItemsFrom(s, pos, 2 * n - 1, acc), ItemsFrom(s, pos, 2 * m - 1, acc), n)
    decreases |s| - pos, 1
  {
    hide Skip, ValueAt, ItemsFrom, WithinLevels;
    ItemsStep(s, pos, 2 * n - 1, acc);
    ItemsStep(s, pos, 2 * m - 1, acc);
    ValueCut(s, pos, n - 1, m - 1);
    var few, many := ValueAt(s, pos, 2 * n - 2), ValueAt(s, pos, 2 * m - 2);
    if many.Got? {
      var next := acc + [many.value];
      assert many.value in next;
      var c := Skip(s, many.pos, false);
      if c < |s| && s[c] == COMMA {
        if few.Got? {
          ItemsCut(s, c + 1, n, m, next);
        } else {
          ItemsKeep(s, c + 1, 2 * m - 1, next);
          var r := ItemsFrom(s, c + 1, 2 * m - 1, next);
          if r.Got? { WithinArray(r.value.items, n); }
        }
      } else if c < |s| && s[c] == CLOSE_BRACKET {
        WithinArray(next, n);
      }
    }
  }

  /** Without levels nothing fits; with one, everything that is no container and an empty
      array do. */
  lemma FlatFits(n: nat)
    ensures n == 0 ==> forall v: Value :: !WithinLevels(v, n)
    ensures n > 0 ==> WithinLevels(Array([]), n)
    ensures n > 0 ==> forall v: Value :: !v.Array? && !v.Object? ==> WithinLevels(v, n)
  {
  }

  lemma WithinObject(members: seq<(seq<Byte>, Value)>, n: nat)
    requires n > 0
    ensures WithinLevels(Object(members), n) <==> forall m | m in members :: WithinLevels(m.1, n - 1)
  {
  }

  lemma WithinArray(items: seq<Value>, n: nat)
    requires n > 0
    ensures WithinLevels(Array(items), n) <==> forall x | x in items :: WithinLevels(x, n - 1)
  {
  }

  /** Reading on never drops what was read. */
  lemma {:induction false} MembersKeep(s: seq<Byte>, pos: nat, budget: int, acc: seq<(seq<Byte>, Value)>)
    requires pos <= |s|
    ensures var r := MembersFrom(s, pos, budget, acc); r.Got? ==> forall x | x in acc :: x in r.value.members
    decreases |s| - pos
  {
    var p := Skip(s, pos, true);
    if p < |s| && s[p] != CLOSE_BRACE && KeyAt(s, p).Got? {
      var key, c := KeyAt(s, p).value, KeyAt(s, p).pos;
      var v := ValueAt(s, c, budget - 1);
      if v.Got? { MembersKeep(s, v.pos, budget, acc + [(key, v.value)]); }
    }
  }

  lemma {:induction false} ItemsKeep(s: seq<Byte>, pos: nat, budget: int, acc: seq<Value>)
    requires pos <= |s|
    ensures var r := ItemsFrom(s, pos, budget, acc); r.Got? ==> forall x | x in acc :: x in r.value.items
    decreases |s| - pos
  {
    hide ValueAt, Skip, ItemsFrom;
    ItemsStep(s, pos, budget, acc);
    var v := ValueAt(s, pos, budget - 1);
    if v.Got? {
      var c := Skip(s, v.pos, false);
      if c < |s| && s[c] == COMMA { ItemsKeep(s, c + 1, budget, acc + [v.value]); }
    }
  }
}
