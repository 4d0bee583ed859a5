/** Choosing a certificate by server name: pattern normalization, wildcard matching, the
    duplicate check of a configuration, and the search. */
module Sni {
  import opened Options

  // ------------------------------------------------------------------- text

  /** Unicode white space. */
  predicate IsSpace(c: char) {
    || '\U{0009}' <= c <= '\U{000D}' || c == ' ' || c == '\U{0085}' || c == '\U{00A0}' || c == '\U{1680}'
    || '\U{2000}' <= c <= '\U{200A}' || c == '\U{2028}' || c == '\U{2029}' || c == '\U{202F}' || c == '\U{205F}'
    || c == '\U{3000}'
  }

  function TrimStart(s: string): string {
    if s != [] && IsSpace(s[0]) then TrimStart(s[1..]) else s
  }

  function TrimEnd(s: string): string {
    if s != [] && IsSpace(s[|s| - 1]) then TrimEnd(s[..|s| - 1]) else s
  }

  function Trim(s: string): string { TrimEnd(TrimStart(s)) }

  function LowerChar(c: char): char {
    if 'A' <= c <= 'Z' then c - 'A' + 'a' else c
  }

  function Lower(s: string): string {
    seq(|s|, i requires 0 <= i < |s| => LowerChar(s[i]))
  }

  /** A name as it is compared. */
  function Folded(s: string): string { Lower(Trim(s)) }

  ghost predicate Tight(s: string) {
    s == [] || (!IsSpace(s[0]) && !IsSpace(s[|s| - 1]))
  }

  lemma {:induction false} TrimStartTight(s: string)
    ensures TrimStart(s) == [] || !IsSpace(TrimStart(s)[0])
  {
    if s != [] && IsSpace(s[0]) { TrimStartTight(s[1..]); }
  }

  lemma {:induction false} TrimEndTight(s: string)
    ensures TrimEnd(s) == [] || !IsSpace(TrimEnd(s)[|TrimEnd(s)| - 1])
    ensures TrimEnd(s) <= s
  {
    if s != [] && IsSpace(s[|s| - 1]) { TrimEndTight(s[..|s| - 1]); }
  }

  /** Folding a folded name changes nothing. */
  lemma FoldedTwice(s: string)
    ensures Folded(Folded(s)) == Folded(s)
  {
    TrimStartTight(s);
    TrimEndTight(TrimStart(s));
    assert Tight(Trim(s));
    var f := Folded(s);
    assert f != [] ==> f[0] == LowerChar(Trim(s)[0]) && f[|f| - 1] == LowerChar(Trim(s)[|f| - 1]);
    assert Trim(f) == f;
    assert Lower(f) == f;
  }

  // --------------------------------------------------------------- patterns

  predicate Wildcard(p: string) { |p| >= 2 && p[0] == '*' && p[1] == '.' }

  predicate HostChar(c: char) {
    'a' <= c <= 'z' || 'A' <= c <= 'Z' || '0' <= c <= '9' || c == '-' || c == '.'
  }

  predicate HasDoubleDot(s: string) {
    exists i | 0 <= i < |s| - 1 :: s[i] == '.' && s[i + 1] == '.'
  }

  function NormalizePattern(raw: string): Option<string> {
    var trimmed := Folded(raw);
    if trimmed == [] then None else
      var host := if Wildcard(trimmed) then trimmed[2..] else trimmed;
      if || host == [] || host[0] == '.' || host[|host| - 1] == '.' || HasDoubleDot(host) || '*' in host
         || (exists c | c in host :: !HostChar(c))
      then None
      else if Wildcard(trimmed) && '.' !in host then None
      else Some(trimmed)
  }

  /** Dot-separated labels, as text between the dots. */
  function Labels(s: string): seq<string> {
    if '.' !in s then [s] else
      var i := DotIndex(s);
      [s[..i]] + Labels(s[i + 1..])
  }

  /** The first dot. */
  function DotIndex(s: string): (i: nat)
    requires '.' in s
    ensures i < |s| && s[i] == '.' && '.' !in s[..i]
  {
    if s[0] == '.' then 0 else
      var i := DotIndex(s[1..]) + 1;
      assert s[..i] == [s[0]] + s[1..][..i - 1];
      i
  }

  predicate LabelChar(c: char) { 'a' <= c <= 'z' || '0' <= c <= '9' || c == '-' }

  /** Every label holds lower-case letters, digits and hyphens, and at least one of them. */
  ghost predicate Hostname(s: string) {
    AllFine(Labels(s))
  }

  ghost predicate AllFine(labels: seq<string>) {
    forall l | l in labels :: FineLabel(l)
  }

  ghost predicate FineLabel(l: string) {
    l != [] && forall c | c in l :: LabelChar(c)
  }

  ghost predicate NoEmptyLabel(s: string) {
    s != [] && s[0] != '.' && s[|s| - 1] != '.' && !HasDoubleDot(s)
  }

  ghost predicate HostChars(s: string) {
    forall c | c in s :: LabelChar(c) || c == '.'
  }

  lemma {:induction false} HostnameIs(s: string)
    ensures Hostname(s) <==> NoEmptyLabel(s) && HostChars(s)
    decreases |s|
  {
    hide Hostname, NoEmptyLabel, HostChars, FineLabel;
    if '.' !in s {
      OneLabel(s);
    } else {
      var i := DotIndex(s);
      HostnameIs(s[i + 1..]);
      FirstLabel(s);
      SplitDots(s, i);
      SplitChars(s, i);
    }
  }

  lemma OneLabel(s: string)
    requires '.' !in s
    ensures Hostname(s) <==> NoEmptyLabel(s) && HostChars(s)
  {
    assert Labels(s) == [s];
    assert s in Labels(s);
  }

  lemma FineCons(l: string, ls: seq<string>)
    ensures AllFine([l] + ls) <==> FineLabel(l) && AllFine(ls)
  {
    hide FineLabel;
    assert l in [l] + ls;
    assert forall m | m in ls :: m in [l] + ls;
  }

  lemma FirstLabel(s: string)
    requires '.' in s
    ensures var i := DotIndex(s);
            Hostname(s) <==> FineLabel(s[..i]) && Hostname(s[i + 1..])
  {
    hide FineLabel, AllFine;
    FineCons(s[..DotIndex(s)], Labels(s[DotIndex(s) + 1..]));
  }

  lemma SplitChars(s: string, i: nat)
    requires i < |s| && s[i] == '.' && '.' !in s[..i]
    ensures i > 0 && HostChars(s) <==> FineLabel(s[..i]) && HostChars(s[i + 1..])
  {
    assert s == s[..i] + "." + s[i + 1..];
  }

  lemma SplitDots(s: string, i: nat)
    requires i < |s| && s[i] == '.' && '.' !in s[..i]
    ensures NoEmptyLabel(s) <==> i > 0 && NoEmptyLabel(s[i + 1..])
  {
  }

  /** A pattern is accepted exactly when, folded, it is a host name, or a star label before a
      host name of at least two labels; it is kept folded. */
  lemma NormalizeExactly(raw: string, p: string)
    ensures NormalizePattern(raw) == Some(p) <==>
              p == Folded(raw) && (Hostname(p) || (Wildcard(p) && Hostname(p[2..]) && '.' in p[2..]))
  {
    hide Folded, Hostname;
    var f := Folded(raw);
    FoldedLower(raw);
    if Wildcard(f) {
      HostPartExactly(f[2..]);
      StarIsNoHost(f);
    } else {
      HostPartExactly(f);
    }
  }

  /** The tests on the host part of a lower-case pattern accept exactly the host names. */
  lemma HostPartExactly(host: string)
    requires LowerCase(host)
    ensures Hostname(host) <==>
              && host != [] && host[0] != '.' && host[|host| - 1] != '.' && !HasDoubleDot(host)
              && '*' !in host && forall c | c in host :: HostChar(c)
  {
    hide Hostname;
    HostnameIs(host);
  }

  ghost predicate LowerCase(s: string) {
    forall c | c in s :: !('A' <= c <= 'Z')
  }

  lemma FoldedLower(raw: string)
    ensures LowerCase(Folded(raw)) && (Wildcard(Folded(raw)) ==> LowerCase(Folded(raw)[2..]))
  {
  }

  lemma StarIsNoHost(f: string)
    requires Wildcard(f)
    ensures !Hostname(f)
  {
    hide Hostname;
    HostnameIs(f);
    assert f[0] in f;
  }

  predicate EndsWith(s: string, suffix: string) {
    |suffix| <= |s| && s[|s| - |suffix|..] == suffix
  }

  predicate SniMatches(pattern: string, serverName: string) {
    var candidate := Folded(serverName);
    if Wildcard(pattern) then
      && EndsWith(candidate, pattern[2..])
      && var prefix := candidate[..|candidate| - |pattern[2..]|];
      && prefix != [] && prefix[|prefix| - 1] == '.'
      && var l := prefix[..|prefix| - 1]; l != [] && '.' !in l
    else pattern == candidate
  }

  /** A wildcard matches exactly the names made of one label, a dot and its suffix. */
  lemma WildcardExactly(suffix: string, name: string)
    ensures SniMatches("*." + suffix, name) <==>
              exists l: string :: l != [] && '.' !in l && Folded(name) == l + "." + suffix
  {
  }

  /** So the name determines the wildcard. */
  lemma WildcardsAgree(p: string, q: string, name: string)
    requires Wildcard(p) && Wildcard(q) && SniMatches(p, name) && SniMatches(q, name)
    ensures p == q
  {
  }

  // ------------------------------------------------------ the configuration

  type Cert = nat

  datatype Entry = Entry(names: seq<string>, cert: Cert)

  datatype SniError =
    | EmptyNames(entry: nat)
    | InvalidName(entry: nat, raw: string)
    | DuplicateName(entry: nat, raw: string)

  /** Entry `e` names the pattern `p`. */
  ghost predicate Names(e: Entry, p: string) {
    exists n | n in e.names :: NormalizePattern(n) == Some(p)
  }

  /** Every name is a pattern, and no pattern is named twice. */
  ghost predicate SoundEntry(names: seq<string>) {
    && (forall n | n in names :: NormalizePattern(n).Some?)
    && (forall i, j | 0 <= i < j < |names| :: NormalizePattern(names[i]) != NormalizePattern(names[j]))
  }

  /** So it is in every entry, every entry has a name, and no two share a pattern. */
  ghost predicate Sound(entries: seq<Entry>) {
    && (forall e | e in entries :: e.names != [] && SoundEntry(e.names))
    && (forall i, j, p | 0 <= i < j < |entries| && Names(entries[i], p) :: !Names(entries[j], p))
  }

  // The same, one name and one entry after the other.

  ghost function PatternsOf(names: seq<string>): set<string> {
    if names == [] then {} else
      var p := NormalizePattern(names[|names| - 1]);
      PatternsOf(names[..|names| - 1]) + if p.Some? then {p.value} else {}
  }

  ghost function AllPatterns(entries: seq<Entry>): set<string> {
    if entries == [] then {} else
      AllPatterns(entries[..|entries| - 1]) + PatternsOf(entries[|entries| - 1].names)
  }

  ghost predicate CheckedNames(names: seq<string>) {
    names == [] ||
    var front, p := names[..|names| - 1], NormalizePattern(names[|names| - 1]);
    CheckedNames(front) && p.Some? && p.value !in PatternsOf(front)
  }

  ghost predicate Checked(entries: seq<Entry>) {
    entries == [] ||
    var front, names := entries[..|entries| - 1], entries[|entries| - 1].names;
    Checked(front) && names != [] && CheckedNames(names) && PatternsOf(names) !! AllPatterns(front)
  }

  lemma {:induction false} PatternsOfHas(names: seq<string>, p: string)
    ensures p in PatternsOf(names) <==> exists n | n in names :: NormalizePattern(n) == Some(p)
  {
    if names != [] {
      var front, last := names[..|names| - 1], names[|names| - 1];
      PatternsOfHas(front, p);
      assert names == front + [last];
      assert last in names;
      if n :| n in front && NormalizePattern(n) == Some(p) { assert n in names; }
    }
  }

  lemma {:induction false} AllPatternsHas(entries: seq<Entry>, p: string)
    ensures p in AllPatterns(entries) <==> exists e | e in entries :: Names(e, p)
  {
    hide PatternsOf, Names;
    if entries != [] {
      var front, last := entries[..|entries| - 1], entries[|entries| - 1];
      AllPatternsHas(front, p);
      PatternsNamed(last, p);
      assert entries == front + [last];
      assert last in entries;
      if e :| e in front && Names(e, p) { assert e in entries; }
    }
  }

  lemma PatternsNamed(e: Entry, p: string)
    ensures p in PatternsOf(e.names) <==> Names(e, p)
  {
    PatternsOfHas(e.names, p);
  }

  lemma {:induction false} CheckedNamesExactly(names: seq<string>)
    ensures CheckedNames(names) <==> SoundEntry(names)
  {
    hide NormalizePattern, PatternsOf;
    if names != [] {
      var front, last := names[..|names| - 1], names[|names| - 1];
      assert names == front + [last];
      CheckedNamesExactly(front);
      if NormalizePattern(last).Some? { PatternsOfHas(front, NormalizePattern(last).value); }
      assert forall i | 0 <= i < |front| :: front[i] == names[i] && front[i] in front;
      assert last in names;
    }
  }

  lemma {:induction false} CheckedExactly(entries: seq<Entry>)
    ensures Checked(entries) <==> Sound(entries)
  {
    hide PatternsOf, AllPatterns, CheckedNames, SoundEntry, Names;
    if entries != [] {
      var front, last := entries[..|entries| - 1], entries[|entries| - 1];
      assert entries == front + [last];
      CheckedExactly(front);
      CheckedNamesExactly(last.names);
      assert forall e | e in front :: e in entries;
      assert last in entries;
      assert forall i | 0 <= i < |front| :: front[i] == entries[i];
      DisjointExactly(front, last);
    }
  }

  lemma DisjointExactly(front: seq<Entry>, last: Entry)
    ensures PatternsOf(last.names) !! AllPatterns(front) <==>
              forall i, p | 0 <= i < |front| && Names(front[i], p) :: !Names(last, p)
  {
    hide PatternsOf, AllPatterns, Names;
    forall p
      ensures p in PatternsOf(last.names) <==> Names(last, p)
      ensures p in AllPatterns(front) <==> exists e | e in front :: Names(e, p)
    {
      PatternsNamed(last, p);
      AllPatternsHas(front, p);
    }
    if PatternsOf(last.names) !! AllPatterns(front) {
      forall i, p | 0 <= i < |front| && Names(front[i], p) ensures !Names(last, p) {
        assert front[i] in front;
        assert p in AllPatterns(front);
      }
    }
  }

  lemma {:induction false} CheckedNamesPrefix(names: seq<string>, k: nat)
    requires k <= |names|
    ensures CheckedNames(names) ==> CheckedNames(names[..k])
    ensures PatternsOf(names[..k]) <= PatternsOf(names)
    decreases |names|
  {
    if k == |names| {
      assert names[..k] == names;
    } else {
      var front := names[..|names| - 1];
      CheckedNamesPrefix(front, k);
      assert front[..k] == names[..k];
    }
  }

  lemma {:induction false} CheckedPrefix(entries: seq<Entry>, n: nat)
    requires n <= |entries| && Checked(entries)
    ensures Checked(entries[..n])
    decreases |entries|
  {
    if n == |entries| {
      assert entries[..n] == entries;
    } else {
      CheckedPrefix(entries[..|entries| - 1], n);
      assert entries[..|entries| - 1][..n] == entries[..n];
    }
  }

  /** Some entry before `n`, or a name before `k` in entry `n`, names `p`. */
  ghost predicate NamedBefore(entries: seq<Entry>, n: nat, k: nat, p: string)
    requires n < |entries| && k <= |entries[n].names|
  {
    (exists e | e in entries[..n] :: Names(e, p)) || exists x | x in entries[n].names[..k] :: NormalizePattern(x) == Some(p)
  }

  /** All names of entry `n` before `k` are patterns that nothing before them names. */
  ghost predicate FineUpTo(entries: seq<Entry>, n: nat, k: nat)
    requires n < |entries| && k <= |entries[n].names|
  {
    && SoundEntry(entries[n].names[..k])
    && forall e, x, p | e in entries[..n] && x in entries[n].names[..k] && NormalizePattern(x) == Some(p) :: !Names(e, p)
  }

  /** The error is the first thing wrong: an entry without names, a name that is no pattern,
      or a name whose pattern was named before. */
  ghost predicate Blames(entries: seq<Entry>, error: SniError) {
    var n := error.entry;
    && n < |entries| && Sound(entries[..n])
    && match error
       case EmptyNames(_) => entries[n].names == []
       case InvalidName(_, raw) =>
         exists k | 0 <= k < |entries[n].names| ::
           entries[n].names[k] == raw && FineUpTo(entries, n, k) && NormalizePattern(raw).None?
       case DuplicateName(_, raw) =>
         exists k | 0 <= k < |entries[n].names| ::
           && entries[n].names[k] == raw && FineUpTo(entries, n, k)
           && NormalizePattern(raw).Some? && NamedBefore(entries, n, k, NormalizePattern(raw).value)
  }

  lemma BlamesName(entries: seq<Entry>, n: nat, k: nat)
    requires n < |entries| && k < |entries[n].names| && Sound(entries[..n])
    requires CheckedNames(entries[n].names[..k]) && PatternsOf(entries[n].names[..k]) !! AllPatterns(entries[..n])
    ensures var raw := entries[n].names[k];
            var p := NormalizePattern(raw);
            && (p.None? ==> Blames(entries, InvalidName(n, raw)))
            && (p.Some? && p.value in AllPatterns(entries[..n]) + PatternsOf(entries[n].names[..k]) ==>
                  Blames(entries, DuplicateName(n, raw)))
  {
    hide NormalizePattern, PatternsOf, AllPatterns, CheckedNames, Names, Sound, SoundEntry;
    var names := entries[n].names;
    CheckedNamesExactly(names[..k]);
    forall e, x, p | e in entries[..n] && x in names[..k] && NormalizePattern(x) == Some(p) ensures !Names(e, p) {
      PatternsOfHas(names[..k], p);
      AllPatternsHas(entries[..n], p);
    }
    assert FineUpTo(entries, n, k);
    var p := NormalizePattern(names[k]);
    if p.Some? {
      PatternsOfHas(names[..k], p.value);
      AllPatternsHas(entries[..n], p.value);
    }
  }

  /** Validate the entries. An error is the first thing wrong with them. */
  method Validate(entries: seq<Entry>) returns (r: Result<nat, SniError>)
    ensures r.Ok? <==> Sound(entries)
    ensures r.Err? ==> Blames(entries, r.error) && !Sound(entries[..r.error.entry + 1])
  {
    hide Sound, Blames, AllPatterns, PatternsOf, CheckedNames, NormalizePattern;
    var seen: set<string> := {};
    ghost var before: set<string> := {};
    var n := 0;
    NothingSeen(entries);
    while n < |entries|
      invariant 0 <= n <= |entries| && Checked(entries[..n])
      invariant seen == before == AllPatterns(entries[..n])
    {
      var names := entries[n].names;
      assert entries[..n + 1][..n] == entries[..n] && entries[..n + 1][n] == entries[n];
      RejectAt(entries, n);
      CheckedExactly(entries[..n]);
      BlamesEmpty(entries, n);
      if names == [] {
        return Err(EmptyNames(n));
      }
      var k := 0;
      NothingNamed(names);
      while k < |names|
        invariant 0 <= k <= |names| && CheckedNames(names[..k])
        invariant PatternsOf(names[..k]) !! before && seen == before + PatternsOf(names[..k])
      {
        var p := NormalizePattern(names[k]);
        OneName(names, k);
        CheckedNamesPrefix(names, k + 1);
        BlamesName(entries, n, k);
        if p.None? {
          return Err(InvalidName(n, names[k]));
        }
        if p.value in seen {
          return Err(DuplicateName(n, names[k]));
        }
        seen := seen + {p.value};
        k := k + 1;
      }
      assert names[..k] == names;
      OneEntry(entries, n);
      before := seen;
      n := n + 1;
    }
    assert entries[..n] == entries;
    CheckedExactly(entries);
    r := Ok(n);
  }

  lemma BlamesEmpty(entries: seq<Entry>, n: nat)
    requires n < |entries| && Sound(entries[..n])
    ensures entries[n].names == [] ==> Blames(entries, EmptyNames(n))
  {
    hide Sound;
  }

  lemma NothingSeen(entries: seq<Entry>)
    ensures AllPatterns(entries[..0]) == {} && Checked(entries[..0])
  {
  }

  lemma NothingNamed(names: seq<string>)
    ensures PatternsOf(names[..0]) == {} && CheckedNames(names[..0])
  {
  }

  lemma OneName(names: seq<string>, k: nat)
    requires k < |names| && CheckedNames(names[..k])
    ensures var p := NormalizePattern(names[k]);
            && (CheckedNames(names[..k + 1]) <==> p.Some? && p.value !in PatternsOf(names[..k]))
            && PatternsOf(names[..k + 1]) == PatternsOf(names[..k]) + (if p.Some? then {p.value} else {})
  {
    assert names[..k + 1][..k] == names[..k];
  }

  lemma OneEntry(entries: seq<Entry>, n: nat)
    requires n < |entries|
    ensures AllPatterns(entries[..n + 1]) == AllPatterns(entries[..n]) + PatternsOf(entries[n].names)
  {
    assert entries[..n + 1][..n] == entries[..n];
  }

  /** An entry that fails its check makes the list unsound there and from there on. */
  lemma RejectAt(entries: seq<Entry>, n: nat)
    requires n < |entries| && Checked(entries[..n])
    ensures var names := entries[n].names;
            names == [] || !CheckedNames(names) || !(PatternsOf(names) !! AllPatterns(entries[..n])) ==>
              Sound(entries[..n]) && !Sound(entries[..n + 1]) && !Sound(entries)
  {
    hide Sound, AllPatterns, PatternsOf, CheckedNames;
    CheckedExactly(entries[..n]);
    CheckedExactly(entries[..n + 1]);
    CheckedExactly(entries);
    assert entries[..n + 1][..n] == entries[..n];
    if Checked(entries) { CheckedPrefix(entries, n + 1); }
  }

  // -------------------------------------------------------------- the search

  /** An entry as it is searched: its names as patterns. */
  datatype Slot = Slot(patterns: seq<string>, cert: Cert)

  function SlotPatterns(names: seq<string>): seq<string> {
    if names == [] then [] else
      var p := NormalizePattern(names[0]);
      (if p.Some? then [p.value] else []) + SlotPatterns(names[1..])
  }

  function SlotOf(e: Entry): Slot { Slot(SlotPatterns(e.names), e.cert) }

  function SlotsOf(entries: seq<Entry>): seq<Slot> {
    seq(|entries|, i requires 0 <= i < |entries| => SlotOf(entries[i]))
  }

  predicate Exact(s: Slot, lowered: string) {
    exists p | p in s.patterns :: !Wildcard(p) && p == lowered
  }

  predicate Wild(s: Slot, lowered: string) {
    exists p | p in s.patterns :: Wildcard(p) && SniMatches(p, lowered)
  }

  datatype Store = Store(default_: Cert, sni: seq<Slot>)

  /** Select the certificate: the first slot with the very name, else the first with a
      wildcard for it, else the default. */
  method ResolveName(store: Store, serverName: Option<string>) returns (cert: Cert)
    ensures serverName.None? ==> cert == store.default_
    ensures serverName.Some? ==> Selects(store, Folded(serverName.value), cert)
  {
    if serverName.Some? {
      var lowered := Folded(serverName.value);
      var i := 0;
      while i < |store.sni|
        invariant 0 <= i <= |store.sni|
        invariant forall j | 0 <= j < i :: !Exact(store.sni[j], lowered)
      {
        if Exact(store.sni[i], lowered) {
          return store.sni[i].cert;
        }
        i := i + 1;
      }
      i := 0;
      while i < |store.sni|
        invariant 0 <= i <= |store.sni|
        invariant forall j | 0 <= j < i :: !Wild(store.sni[j], lowered)
      {
        if Wild(store.sni[i], lowered) {
          return store.sni[i].cert;
        }
        i := i + 1;
      }
    }
    cert := store.default_;
  }

  /** The certificate is that of some slot with the very name; of some slot with a wildcard
      for it when there is none; and the default when there is neither. */
  ghost predicate Selects(store: Store, lowered: string, cert: Cert) {
    if exists s | s in store.sni :: Exact(s, lowered)
    then exists s | s in store.sni :: Exact(s, lowered) && s.cert == cert
    else if exists s | s in store.sni :: Wild(s, lowered)
    then exists s | s in store.sni :: Wild(s, lowered) && s.cert == cert
    else cert == store.default_
  }

  lemma {:induction false} SlotPatternsHas(names: seq<string>, p: string)
    ensures p in SlotPatterns(names) <==> exists n | n in names :: NormalizePattern(n) == Some(p)
  {
    hide NormalizePattern;
    if names != [] {
      SlotPatternsHas(names[1..], p);
      assert names == [names[0]] + names[1..];
      if n :| n in names[1..] && NormalizePattern(n) == Some(p) { assert n in names; }
    }
  }

  /** In a sound configuration at most one entry names a pattern. */
  lemma NamedOnce(entries: seq<Entry>, d: Entry, e: Entry, p: string)
    requires Sound(entries) && d in entries && e in entries
    requires p in SlotOf(d).patterns && p in SlotOf(e).patterns
    ensures d == e
  {
    hide NormalizePattern, SoundEntry;
    SlotPatternsHas(d.names, p);
    SlotPatternsHas(e.names, p);
    var i :| 0 <= i < |entries| && entries[i] == d;
    var j :| 0 <= j < |entries| && entries[j] == e;
    assert Names(d, p) && Names(e, p);
  }

  /** At most one entry matches a name exactly, and at most one by wildcard. */
  lemma MatchesOnce(entries: seq<Entry>, d: Entry, e: Entry, name: string)
    requires Sound(entries) && d in entries && e in entries
    ensures Exact(SlotOf(d), name) && Exact(SlotOf(e), name) ==> d == e
    ensures Wild(SlotOf(d), name) && Wild(SlotOf(e), name) ==> d == e
  {
    hide Sound, SlotPatterns;
    if Exact(SlotOf(d), name) && Exact(SlotOf(e), name) {
      NamedOnce(entries, d, e, name);
    }
    if Wild(SlotOf(d), name) && Wild(SlotOf(e), name) {
      var p :| p in SlotOf(d).patterns && Wildcard(p) && SniMatches(p, name);
      var q :| q in SlotOf(e).patterns && Wildcard(q) && SniMatches(q, name);
      WildcardsAgree(p, q, name);
      NamedOnce(entries, d, e, p);
    }
  }

  ghost predicate SameEntries(a: seq<Entry>, b: seq<Entry>) {
    forall e :: e in a <==> e in b
  }

  lemma SlotEntry(entries: seq<Entry>, s: Slot) returns (e: Entry)
    requires s in SlotsOf(entries)
    ensures e in entries && s == SlotOf(e)
  {
    var i :| 0 <= i < |entries| && SlotsOf(entries)[i] == s;
    e := entries[i];
  }

  lemma SlotsListed(a: seq<Entry>, b: seq<Entry>)
    requires SameEntries(a, b)
    ensures forall s | s in SlotsOf(a) :: s in SlotsOf(b)
  {
    forall s | s in SlotsOf(a) ensures s in SlotsOf(b) {
      var e := SlotEntry(a, s);
      var j :| 0 <= j < |b| && b[j] == e;
      assert SlotsOf(b)[j] == s;
    }
  }

  /** The selection does not depend on the order of the entries of a valid configuration:
      however they are listed, the search can select one certificate only. */
  lemma OrderFree(a: seq<Entry>, b: seq<Entry>, default_: Cert, name: string, x: Cert, y: Cert)
    requires Sound(a) && multiset(a) == multiset(b)
    requires Selects(Store(default_, SlotsOf(a)), name, x) && Selects(Store(default_, SlotsOf(b)), name, y)
    ensures x == y
  {
    hide Sound, Exact, Wild, SlotOf, SlotsOf;
    SameWhenPermuted(a, b);
    SlotsListed(a, b);
    SlotsListed(b, a);
    forall s, t | s in SlotsOf(a) && t in SlotsOf(a)
      ensures Exact(s, name) && Exact(t, name) ==> s == t
      ensures Wild(s, name) && Wild(t, name) ==> s == t
    {
      var d := SlotEntry(a, s);
      var e := SlotEntry(a, t);
      MatchesOnce(a, d, e, name);
    }
  }

  lemma SameWhenPermuted(a: seq<Entry>, b: seq<Entry>)
    requires multiset(a) == multiset(b)
    ensures SameEntries(a, b)
  {
    forall e ensures e in a <==> e in b {
      assert e in a <==> e in multiset(a);
      assert e in b <==> e in multiset(b);
    }
  }

  /** The search matches the name it has already folded as it would the name it was given. */
  lemma MatchesFolded(pattern: string, name: string)
    ensures SniMatches(pattern, Folded(name)) <==> SniMatches(pattern, name)
  {
    hide Folded;
    FoldedTwice(name);
  }
}
