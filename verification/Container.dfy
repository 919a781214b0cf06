/** The container format: canonical bytes and the deploy-time verifier. */
module Containers {
  import opened Bytes
  import opened Isa

  const SELECTOR_BYTES := 4
  const MAX_CODE_BYTES := 0x1_0000
  const MAX_CONSTS := 0x1000
  const MAX_ENTRIES := 0x100
  const MAX_ACCESS_SLOTS := 0x1000
  const FORMAT_TAG: seq<byte> := [81, 86, 77, 49]

  type Selector = s: seq<byte> | |s| == SELECTOR_BYTES witness seq(SELECTOR_BYTES, i => 0)

  datatype StateAccess = StateAccess(
    slotReads: seq<u64>, slotWrites: seq<u64>, keyedReads: seq<u64>, keyedWrites: seq<u64>)
  {
    function Declared(): nat {
      |slotReads| + |slotWrites| + |keyedReads| + |keyedWrites|
    }
  }

  datatype Entry = Entry(selector: Selector, offset: u32, access: StateAccess)

  datatype Container = Container(code: seq<byte>, consts: seq<u64>, entries: seq<Entry>)

  // ---- Canonical bytes ----

  /** A length as four bytes; one that does not fit is recorded as the largest that does. */
  function LenBytes(n: nat): seq<byte> {
    ToBE(if n < TWO32 then n else TWO32 - 1, 4)
  }

  function WordBytes(words: seq<u64>): seq<byte> {
    if words == [] then [] else ToBE(words[0], 8) + WordBytes(words[1..])
  }

  function ListBytes(words: seq<u64>): seq<byte> {
    LenBytes(|words|) + WordBytes(words)
  }

  function EntryBytes(e: Entry): seq<byte> {
    e.selector + ToBE(e.offset, 4)
    + ListBytes(e.access.slotReads) + ListBytes(e.access.slotWrites)
    + ListBytes(e.access.keyedReads) + ListBytes(e.access.keyedWrites)
  }

  function EntriesBytes(entries: seq<Entry>): seq<byte> {
    if entries == [] then [] else EntryBytes(entries[0]) + EntriesBytes(entries[1..])
  }

  function CanonicalBytes(c: Container): seq<byte> {
    FORMAT_TAG
    + LenBytes(|c.code|) + c.code
    + ListBytes(c.consts)
    + LenBytes(|c.entries|) + EntriesBytes(c.entries)
  }

  /** Every list in the container is short enough for a four-byte length. */
  predicate Fits(c: Container) {
    && |c.code| < TWO32 && |c.consts| < TWO32 && |c.entries| < TWO32
    && forall e | e in c.entries :: FitsEntry(e)
  }

  predicate FitsEntry(e: Entry) {
    && |e.access.slotReads| < TWO32 && |e.access.slotWrites| < TWO32
    && |e.access.keyedReads| < TWO32 && |e.access.keyedWrites| < TWO32
  }

  // ---- A parser that undoes the serializer ----

  function TakeBytes(s: seq<byte>, n: nat): Option<(seq<byte>, seq<byte>)> {
    if n <= |s| then Some((s[..n], s[n..])) else None
  }

  function TakeLen(s: seq<byte>): Option<(u32, seq<byte>)> {
    if |s| < 4 then None else Some((U32At(s[..4]), s[4..]))
  }

  function TakeWords(s: seq<byte>, n: nat): Option<(seq<u64>, seq<byte>)>
    decreases n
  {
    if n == 0 then Some(([], s))
    else if |s| < 8 then None
    else
      match TakeWords(s[8..], n - 1)
      case None => None
      case Some((words, rest)) => Some(([U64At(s[..8])] + words, rest))
  }

  function TakeList(s: seq<byte>): Option<(seq<u64>, seq<byte>)> {
    match TakeLen(s)
    case None => None
    case Some((n, rest)) => TakeWords(rest, n)
  }

  function TakeAccess(s: seq<byte>): Option<(StateAccess, seq<byte>)> {
    match TakeList(s) case None => None case Some((a, s1)) =>
    match TakeList(s1) case None => None case Some((b, s2)) =>
    match TakeList(s2) case None => None case Some((c, s3)) =>
    match TakeList(s3) case None => None case Some((d, s4)) =>
    Some((StateAccess(a, b, c, d), s4))
  }

  function TakeEntry(s: seq<byte>): Option<(Entry, seq<byte>)> {
    if |s| < 8 then None
    else
      match TakeAccess(s[8..])
      case None => None
      case Some((access, rest)) => Some((Entry(s[..4], U32At(s[4..8]), access), rest))
  }

  function TakeEntries(s: seq<byte>, n: nat): Option<(seq<Entry>, seq<byte>)>
    decreases n
  {
    if n == 0 then Some(([], s))
    else
      match TakeEntry(s) case None => None case Some((e, rest)) =>
      match TakeEntries(rest, n - 1) case None => None case Some((es, end)) =>
      Some(([e] + es, end))
  }

  function Parse(s: seq<byte>): Option<(Container, seq<byte>)> {
    if |s| < 4 || s[..4] != FORMAT_TAG then None
    else
      match TakeLen(s[4..]) case None => None case Some((n, s1)) =>
      match TakeBytes(s1, n) case None => None case Some((code, s2)) =>
      match TakeList(s2) case None => None case Some((consts, s3)) =>
      match TakeLen(s3) case None => None case Some((m, s4)) =>
      match TakeEntries(s4, m) case None => None case Some((entries, rest)) =>
      Some((Container(code, consts, entries), rest))
  }

  lemma LenParses(n: nat, rest: seq<byte>)
    requires n < TWO32
    ensures TakeLen(LenBytes(n) + rest) == Some((n, rest))
  {
    hide ToBE, FromBE;
    WordSizes();
    FromToBE(n, 4);
    var s := LenBytes(n) + rest;
    assert s[..4] == LenBytes(n) && s[4..] == rest;
  }

  lemma {:induction false} WordsParse(words: seq<u64>, rest: seq<byte>)
    ensures TakeWords(WordBytes(words) + rest, |words|) == Some((words, rest))
    decreases |words|
  {
    hide ToBE, FromBE;
    WordSizes();
    if words == [] {
      assert WordBytes(words) + rest == rest;
    } else {
      FromToBE(words[0], 8);
      var s := WordBytes(words) + rest;
      assert s[..8] == ToBE(words[0], 8);
      assert s[8..] == WordBytes(words[1..]) + rest;
      WordsParse(words[1..], rest);
      assert [words[0]] + words[1..] == words;
    }
  }

  lemma ListParses(words: seq<u64>, rest: seq<byte>)
    requires |words| < TWO32
    ensures TakeList(ListBytes(words) + rest) == Some((words, rest))
  {
    hide WordBytes, LenBytes, TakeLen, TakeWords;
    assert ListBytes(words) + rest == LenBytes(|words|) + (WordBytes(words) + rest);
    LenParses(|words|, WordBytes(words) + rest);
    WordsParse(words, rest);
  }

  function AccessBytes(a: StateAccess): seq<byte> {
    ListBytes(a.slotReads) + (ListBytes(a.slotWrites) + (ListBytes(a.keyedReads) + ListBytes(a.keyedWrites)))
  }

  lemma AccessParses(e: Entry, rest: seq<byte>)
    requires FitsEntry(e)
    ensures TakeAccess(AccessBytes(e.access) + rest) == Some((e.access, rest))
  {
    hide ListBytes, TakeList;
    var a := e.access;
    var s3 := ListBytes(a.keyedWrites) + rest;
    var s2 := ListBytes(a.keyedReads) + s3;
    var s1 := ListBytes(a.slotWrites) + s2;
    assert AccessBytes(a) + rest == ListBytes(a.slotReads) + s1;
    ListParses(a.slotReads, s1);
    ListParses(a.slotWrites, s2);
    ListParses(a.keyedReads, s3);
    ListParses(a.keyedWrites, rest);
  }

  lemma EntryParses(e: Entry, rest: seq<byte>)
    requires FitsEntry(e)
    ensures TakeEntry(EntryBytes(e) + rest) == Some((e, rest))
  {
    hide ListBytes, TakeAccess, ToBE, FromBE;
    WordSizes();
    FromToBE(e.offset, 4);
    var s := EntryBytes(e) + rest;
    assert s[..4] == e.selector && s[4..8] == ToBE(e.offset, 4);
    assert s[8..] == AccessBytes(e.access) + rest;
    AccessParses(e, rest);
  }

  lemma {:induction false} EntriesParse(entries: seq<Entry>, rest: seq<byte>)
    requires forall e | e in entries :: FitsEntry(e)
    ensures TakeEntries(EntriesBytes(entries) + rest, |entries|) == Some((entries, rest))
    decreases |entries|
  {
    hide EntryBytes, TakeEntry, FitsEntry;
    if entries == [] {
      assert EntriesBytes(entries) + rest == rest;
    } else {
      var more := EntriesBytes(entries[1..]) + rest;
      assert EntriesBytes(entries) + rest == EntryBytes(entries[0]) + more;
      EntryParses(entries[0], more);
      EntriesParse(entries[1..], rest);
      assert [entries[0]] + entries[1..] == entries;
    }
  }

  /** The parser undoes the serializer whatever follows. */
  lemma CanonicalParses(c: Container, rest: seq<byte>)
    requires Fits(c)
    ensures Parse(CanonicalBytes(c) + rest) == Some((c, rest))
  {
    hide ListBytes, LenBytes, EntriesBytes, TakeList, TakeLen, TakeEntries, FitsEntry;
    var s4 := EntriesBytes(c.entries) + rest;
    var s3 := LenBytes(|c.entries|) + s4;
    var s2 := ListBytes(c.consts) + s3;
    var s1 := c.code + s2;
    var s := CanonicalBytes(c) + rest;
    assert s == FORMAT_TAG + (LenBytes(|c.code|) + s1);
    assert s[..4] == FORMAT_TAG && s[4..] == LenBytes(|c.code|) + s1;
    LenParses(|c.code|, s1);
    assert s1[..|c.code|] == c.code && s1[|c.code|..] == s2;
    ListParses(c.consts, s3);
    LenParses(|c.entries|, s4);
    EntriesParse(c.entries, rest);
  }

  /** Canonical bytes are injective and prefix-free. */
  lemma CanonicalInjective(c: Container, rest: seq<byte>, c': Container, rest': seq<byte>)
    requires Fits(c) && Fits(c')
    requires CanonicalBytes(c) + rest == CanonicalBytes(c') + rest'
    ensures c == c' && rest == rest'
  {
    CanonicalParses(c, rest);
    CanonicalParses(c', rest');
  }

  // ---- What one container's bytes determine ----

  /** Every list in the container is short enough for its recorded length not to be the one that
      longer lists saturate at. */
  predicate Short(c: Container) {
    && |c.code| < TWO32 - 1 && |c.consts| < TWO32 - 1 && |c.entries| < TWO32 - 1
    && forall e | e in c.entries :: ShortEntry(e)
  }

  predicate ShortEntry(e: Entry) {
    && |e.access.slotReads| < TWO32 - 1 && |e.access.slotWrites| < TWO32 - 1
    && |e.access.keyedReads| < TWO32 - 1 && |e.access.keyedWrites| < TWO32 - 1
  }

  lemma LenBinds(n: nat, rest: seq<byte>, n': nat, rest': seq<byte>)
    requires n < TWO32 - 1 && LenBytes(n) + rest == LenBytes(n') + rest'
    ensures n == n' && rest == rest'
  {
    var m := if n' < TWO32 then n' else TWO32 - 1;
    LenParses(n, rest);
    assert LenBytes(n') == LenBytes(m);
    LenParses(m, rest');
  }

  lemma ListBinds(words: seq<u64>, rest: seq<byte>, words': seq<u64>, rest': seq<byte>)
    requires |words| < TWO32 - 1 && ListBytes(words) + rest == ListBytes(words') + rest'
    ensures words == words' && rest == rest'
  {
    hide WordBytes, LenBytes, TakeWords;
    var tail, tail' := WordBytes(words) + rest, WordBytes(words') + rest';
    assert ListBytes(words) + rest == LenBytes(|words|) + tail;
    assert ListBytes(words') + rest' == LenBytes(|words'|) + tail';
    LenBinds(|words|, tail, |words'|, tail');
    WordsParse(words, rest);
    WordsParse(words', rest');
  }

  lemma AccessBinds(e: Entry, rest: seq<byte>, e': Entry, rest': seq<byte>)
    requires ShortEntry(e) && AccessBytes(e.access) + rest == AccessBytes(e'.access) + rest'
    ensures e.access == e'.access && rest == rest'
  {
    hide ListBytes;
    var a, a' := e.access, e'.access;
    var s3, s3' := ListBytes(a.keyedWrites) + rest, ListBytes(a'.keyedWrites) + rest';
    var s2, s2' := ListBytes(a.keyedReads) + s3, ListBytes(a'.keyedReads) + s3';
    var s1, s1' := ListBytes(a.slotWrites) + s2, ListBytes(a'.slotWrites) + s2';
    assert AccessBytes(a) + rest == ListBytes(a.slotReads) + s1;
    assert AccessBytes(a') + rest' == ListBytes(a'.slotReads) + s1';
    ListBinds(a.slotReads, s1, a'.slotReads, s1');
    ListBinds(a.slotWrites, s2, a'.slotWrites, s2');
    ListBinds(a.keyedReads, s3, a'.keyedReads, s3');
    ListBinds(a.keyedWrites, rest, a'.keyedWrites, rest');
  }

  lemma EntryBinds(e: Entry, rest: seq<byte>, e': Entry, rest': seq<byte>)
    requires ShortEntry(e) && EntryBytes(e) + rest == EntryBytes(e') + rest'
    ensures e == e' && rest == rest'
  {
    hide ListBytes, ToBE, FromBE;
    WordSizes();
    FromToBE(e.offset, 4);
    FromToBE(e'.offset, 4);
    var s, s' := EntryBytes(e) + rest, EntryBytes(e') + rest';
    assert s[..4] == e.selector && s[4..8] == ToBE(e.offset, 4) && s[8..] == AccessBytes(e.access) + rest;
    assert s'[..4] == e'.selector && s'[4..8] == ToBE(e'.offset, 4) && s'[8..] == AccessBytes(e'.access) + rest';
    AccessBinds(e, rest, e', rest');
  }

  lemma {:induction false} EntriesBind(entries: seq<Entry>, rest: seq<byte>, entries': seq<Entry>, rest': seq<byte>)
    requires (forall e | e in entries :: ShortEntry(e)) && |entries| == |entries'|
    requires EntriesBytes(entries) + rest == EntriesBytes(entries') + rest'
    ensures entries == entries' && rest == rest'
    decreases |entries|
  {
    hide EntryBytes, ShortEntry;
    if entries == [] {
      assert EntriesBytes(entries) + rest == rest && EntriesBytes(entries') + rest' == rest';
    } else {
      var more, more' := EntriesBytes(entries[1..]) + rest, EntriesBytes(entries'[1..]) + rest';
      assert EntriesBytes(entries) + rest == EntryBytes(entries[0]) + more;
      assert EntriesBytes(entries') + rest' == EntryBytes(entries'[0]) + more';
      EntryBinds(entries[0], more, entries'[0], more');
      EntriesBind(entries[1..], rest, entries'[1..], rest');
      assert entries == [entries[0]] + entries[1..] && entries' == [entries'[0]] + entries'[1..];
    }
  }

  /** A short container's bytes are no other container's, nor the beginning of them, whatever that
      other container holds. */
  lemma CanonicalBinds(c: Container, rest: seq<byte>, c': Container, rest': seq<byte>)
    requires Short(c) && CanonicalBytes(c) + rest == CanonicalBytes(c') + rest'
    ensures c == c' && rest == rest'
  {
    hide ListBytes, LenBytes, EntriesBytes, ShortEntry;
    var s4, s4' := EntriesBytes(c.entries) + rest, EntriesBytes(c'.entries) + rest';
    var s3, s3' := LenBytes(|c.entries|) + s4, LenBytes(|c'.entries|) + s4';
    var s2, s2' := ListBytes(c.consts) + s3, ListBytes(c'.consts) + s3';
    var s1, s1' := LenBytes(|c.code|) + (c.code + s2), LenBytes(|c'.code|) + (c'.code + s2');
    var s, s' := CanonicalBytes(c) + rest, CanonicalBytes(c') + rest';
    assert s == FORMAT_TAG + s1 && s' == FORMAT_TAG + s1';
    assert s[4..] == s1 && s'[4..] == s1';
    LenBinds(|c.code|, c.code + s2, |c'.code|, c'.code + s2');
    SamePrefix(c.code, s2, c'.code, s2');
    ListBinds(c.consts, s3, c'.consts, s3');
    LenBinds(|c.entries|, s4, |c'.entries|, s4');
    EntriesBind(c.entries, rest, c'.entries, rest');
  }

  lemma SamePrefix(a: seq<byte>, rest: seq<byte>, b: seq<byte>, rest': seq<byte>)
    requires |a| == |b| && a + rest == b + rest'
    ensures a == b && rest == rest'
  {
    assert (a + rest)[..|a|] == a && (a + rest)[|a|..] == rest;
    assert (b + rest')[..|a|] == b && (b + rest')[|a|..] == rest';
  }

  function Identifier(sha3: seq<byte> -> Key, c: Container): Key {
    sha3(CanonicalBytes(c))
  }

  /** Another container shares a short container's identifier only through a collision of their
      bytes. */
  lemma IdentifierBinds(sha3: seq<byte> -> Key, c: Container, c': Container)
    requires Short(c) && c != c' && Identifier(sha3, c) == Identifier(sha3, c')
    ensures CanonicalBytes(c) != CanonicalBytes(c') && sha3(CanonicalBytes(c)) == sha3(CanonicalBytes(c'))
  {
    if CanonicalBytes(c) == CanonicalBytes(c') {
      CanonicalBinds(c, [], c', []);
      assert false;
    }
  }

  /** Lengths past four bytes saturate, and then injectivity fails: a container whose code has the
      greatest length that fits shares its bytes with one whose code is longer. */
  lemma OverlongCollides(base: seq<byte>)
    requires |base| == TWO32 - 1
    ensures var tail: seq<byte> := [0, 0, 0, 1, 0, 0, 0, 0];
            var long, short := Container(base + tail, [], []), Container(base, [0], []);
            && !Fits(long) && Fits(short) && !Short(short) && long != short
            && CanonicalBytes(long) == CanonicalBytes(short)
  {
    var tail: seq<byte> := [0, 0, 0, 1, 0, 0, 0, 0];
    var long, short := Container(base + tail, [], []), Container(base, [0], []);
    OneLen();
    hide ToBE;
    AllZeros(4);
    AllZeros(8);
    var head := FORMAT_TAG + LenBytes(TWO32 - 1) + base;
    var zeros: seq<byte> := seq(12, i => 0);
    assert LenBytes(0) == [0, 0, 0, 0];
    assert WordBytes([0]) == ToBE(0, 8) + WordBytes([]);
    assert CanonicalBytes(short) == head + ([0, 0, 0, 1] + zeros);
    assert LenBytes(|long.code|) == LenBytes(TWO32 - 1);
    assert CanonicalBytes(long) == head + ([0, 0, 0, 1] + zeros);
  }

  lemma OneLen()
    ensures LenBytes(1) == [0, 0, 0, 1]
  {
    AllZeros(3);
    assert ToBE(1, 4) == ToBE(0, 3) + [1];
  }

  // ---- The layout, byte by byte ----

  /** Word `k` of a list stands at byte 8 * k, big-endian. */
  lemma {:induction false} WordStands(words: seq<u64>, k: nat)
    requires k < |words|
    ensures |WordBytes(words)| == 8 * |words| && WordBytes(words)[8 * k..8 * k + 8] == ToBE(words[k], 8)
    decreases |words|
  {
    hide ToBE;
    WordsSize(words);
    if k > 0 {
      WordStands(words[1..], k - 1);
      var rest := WordBytes(words[1..]);
      assert WordBytes(words)[8..] == rest;
      assert WordBytes(words)[8 * k..8 * k + 8] == WordBytes(words)[8..][8 * (k - 1)..8 * (k - 1) + 8];
    }
  }

  lemma {:induction false} WordsSize(words: seq<u64>)
    ensures |WordBytes(words)| == 8 * |words|
    decreases |words|
  {
    hide ToBE;
    if words != [] {
      WordsSize(words[1..]);
    }
  }

  /** Entries follow one another. */
  lemma {:induction false} EntriesAppend(a: seq<Entry>, b: seq<Entry>)
    ensures EntriesBytes(a + b) == EntriesBytes(a) + EntriesBytes(b)
    decreases |a|
  {
    hide EntryBytes;
    if a == [] {
      assert a + b == b;
    } else {
      assert (a + b)[1..] == a[1..] + b;
      EntriesAppend(a[1..], b);
    }
  }

  /** The layout of a container of one entry: the tag "QVM1", the code, the constants, and the entry's
      selector, offset, slots read, slots written, bases read and bases written, each list behind its
      length. */
  lemma CanonicalLayout(c: Container, e: Entry)
    requires Short(c) && c.entries == [e]
    ensures var a := e.access;
            CanonicalBytes(c) ==
            [81, 86, 77, 49]
            + ToBE(|c.code|, 4) + c.code
            + ToBE(|c.consts|, 4) + WordBytes(c.consts)
            + [0, 0, 0, 1] + e.selector + ToBE(e.offset, 4)
            + ToBE(|a.slotReads|, 4) + WordBytes(a.slotReads)
            + ToBE(|a.slotWrites|, 4) + WordBytes(a.slotWrites)
            + ToBE(|a.keyedReads|, 4) + WordBytes(a.keyedReads)
            + ToBE(|a.keyedWrites|, 4) + WordBytes(a.keyedWrites)
  {
    hide ToBE, WordBytes;
    OneLen();
    assert ShortEntry(e);
    assert EntriesBytes([e]) == EntryBytes(e) + EntriesBytes([]);
  }

  method PutLen(out: ByteVec, n: nat)
    modifies out
    ensures out.bytes == old(out.bytes) + LenBytes(n)
  {
    out.Extend(ToBE(if n < TWO32 then n else TWO32 - 1, 4));
  }

  method PutWords(out: ByteVec, words: seq<u64>)
    modifies out
    ensures out.bytes == old(out.bytes) + WordBytes(words)
  {
    hide ToBE;
    var i := 0;
    assert words[0..] == words;
    while i < |words|
      invariant 0 <= i <= |words|
      invariant out.bytes + WordBytes(words[i..]) == old(out.bytes) + WordBytes(words)
    {
      out.Extend(ToBE(words[i], 8));
      assert words[i..][1..] == words[i + 1..];
      i := i + 1;
    }
  }

  method PutSlots(out: ByteVec, slots: seq<u64>)
    modifies out
    ensures out.bytes == old(out.bytes) + ListBytes(slots)
  {
    PutLen(out, |slots|);
    PutWords(out, slots);
  }

  method PutEntry(out: ByteVec, e: Entry)
    modifies out
    ensures out.bytes == old(out.bytes) + EntryBytes(e)
  {
    hide ListBytes, ToBE;
    out.Extend(e.selector);
    out.Extend(ToBE(e.offset, 4));
    PutSlots(out, e.access.slotReads);
    PutSlots(out, e.access.slotWrites);
    PutSlots(out, e.access.keyedReads);
    PutSlots(out, e.access.keyedWrites);
  }

  /** The serializer as the source runs it, appending to one buffer. */
  method Serialize(c: Container) returns (bytes: seq<byte>)
    ensures bytes == CanonicalBytes(c)
  {
    hide ListBytes, LenBytes, EntryBytes;
    var out := new ByteVec();
    out.Extend(FORMAT_TAG);
    PutLen(out, |c.code|);
    out.Extend(c.code);
    PutSlots(out, c.consts);
    PutLen(out, |c.entries|);
    ghost var head := out.bytes;
    var i := 0;
    assert c.entries[0..] == c.entries;
    while i < |c.entries|
      invariant 0 <= i <= |c.entries|
      invariant out.bytes + EntriesBytes(c.entries[i..]) == head + EntriesBytes(c.entries)
    {
      PutEntry(out, c.entries[i]);
      assert c.entries[i..][1..] == c.entries[i + 1..];
      i := i + 1;
    }
    assert out.bytes + EntriesBytes([]) == out.bytes;
    return out.bytes;
  }
}
