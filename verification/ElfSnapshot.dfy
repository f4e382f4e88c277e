/** Inspection-only ELF64 snapshots: DT_NEEDED tags of ignored libraries are overwritten in
    place with DT_DEBUG. Offsets and field widths follow the System V gABI, chapter 5
    (Program Header, Dynamic Section); Python integers do not wrap. */
module ElfSnapshot {
  import opened Wrappers

  const MAX_FILE_BYTES := 256 * 1024 * 1024
  const DT_NEEDED := 1
  const DT_STRTAB := 5
  const DT_STRSZ := 10
  const DT_DEBUG := 21
  const PT_LOAD := 1
  const PT_DYNAMIC := 2

  type Byte = b: int | 0 <= b < 256
  type Bytes = seq<Byte>

  // ------------------------------------------------------------- field access

  function U16(s: Bytes, o: nat): nat
    requires o + 2 <= |s|
  {
    (s[o] as int) + 0x100 * (s[o + 1] as int)
  }

  function U32(s: Bytes, o: nat): nat
    requires o + 4 <= |s|
  {
    U16(s, o) + 0x1_0000 * U16(s, o + 2)
  }

  function U64(s: Bytes, o: nat): nat
    requires o + 8 <= |s|
  {
    U32(s, o) + 0x1_0000_0000 * U32(s, o + 4)
  }

  // ------------------------------------------------------------ reading tables

  datatype Segment = Segment(fileOffset: nat, address: nat, size: nat)

  datatype Scan = Scan(loads: seq<Segment>, dynamic: Option<Segment>)

  datatype Header = Header(kind: nat, segment: Segment)

  function HeaderAt(s: Bytes, o: nat): Header
    requires o + 56 <= |s|
  {
    Header(U32(s, o), Segment(U64(s, o + 8), U64(s, o + 16), U64(s, o + 32)))
  }

  /** The first `n` program headers. */
  function ScanUpTo(s: Bytes, phOffset: nat, phSize: nat, n: nat): Option<Scan>
    requires phSize >= 56 && phOffset + n * phSize <= |s|
  {
    if n == 0 then Some(Scan([], None))
    else
      assert n * phSize == (n - 1) * phSize + phSize;
      ScanOne(ScanUpTo(s, phOffset, phSize, n - 1), HeaderAt(s, phOffset + (n - 1) * phSize), |s|)
  }

  function ScanOne(previous: Option<Scan>, header: Header, size: nat): Option<Scan> {
    if previous.None? || header.segment.fileOffset + header.segment.size > size then None
    else if header.kind == PT_LOAD then Some(previous.value.(loads := previous.value.loads + [header.segment]))
    else if header.kind != PT_DYNAMIC then previous
    else if previous.value.dynamic.Some? then None
    else Some(previous.value.(dynamic := Some(header.segment)))
  }

  /** Dynamic entries before the first DT_NULL. */
  function EntryCount(s: Bytes, offset: nat, slots: nat): (n: nat)
    requires offset + 16 * slots <= |s|
    ensures n <= slots
    decreases slots
  {
    if slots == 0 || U64(s, offset) == 0 then 0 else 1 + EntryCount(s, offset + 16, slots - 1)
  }

  /** Values of the entries with one tag, in order. */
  function ValuesOf(s: Bytes, offset: nat, n: nat, tag: nat): seq<nat>
    requires offset + 16 * n <= |s|
  {
    if n == 0 then []
    else ValuesOf(s, offset, n - 1, tag)
         + (if U64(s, offset + 16 * (n - 1)) == tag then [U64(s, offset + 16 * (n - 1) + 8)] else [])
  }

  function Locations(loads: seq<Segment>, table: nat, size: nat): (r: seq<int>)
    ensures forall b :: b in r ==> exists l :: l in loads && b == l.fileOffset + table - l.address
                                               && l.address <= table && table + size <= l.address + l.size
  {
    if loads == [] then []
    else
      var l := loads[|loads| - 1];
      Locations(loads[..|loads| - 1], table, size)
      + (if l.address <= table && table + size <= l.address + l.size then [l.fileOffset + table - l.address] else [])
  }

  /** Where everything is: headers, `count` live entries of `slots` from `dynamic`, strings at `base`. */
  datatype Layout = Layout(phOffset: nat, phSize: nat, phCount: nat, dynamic: nat, slots: nat, count: nat,
                           base: nat, strings: nat)

  const MAGIC: Bytes := [0x7f, 0x45, 0x4c, 0x46, 2, 1]

  function HeadersOf(s: Bytes): Option<(nat, nat, nat)> {
    if |s| < 58 || s[..6] != MAGIC then None
    else
      var phOffset, phSize, phCount := U64(s, 32), U16(s, 54), U16(s, 56);
      if phSize < 56 || phCount > 128 || phOffset + phCount * phSize > |s| then None
      else Some((phOffset, phSize, phCount))
  }

  lemma ScanInBounds(s: Bytes, phOffset: nat, phSize: nat, n: nat)
    requires phSize >= 56 && phOffset + n * phSize <= |s|
    ensures var scan := ScanUpTo(s, phOffset, phSize, n);
            scan.Some? ==>
              && (forall l :: l in scan.value.loads ==> l.fileOffset + l.size <= |s|)
              && (scan.value.dynamic.Some? ==> scan.value.dynamic.value.fileOffset + scan.value.dynamic.value.size <= |s|)
  {
    if n > 0 {
      assert n * phSize == (n - 1) * phSize + phSize;
      ScanInBounds(s, phOffset, phSize, n - 1);
    }
  }

  /** Everything the loops establish before the first write; `None` where the source raises. */
  function LayoutOf(s: Bytes): (r: Option<Layout>)
    ensures r.Some? ==> InBounds(s, r.value)
  {
    var headers := HeadersOf(s);
    if headers.None? then None
    else
      var (phOffset, phSize, phCount) := headers.value;
      var scan := ScanUpTo(s, phOffset, phSize, phCount);
      ScanInBounds(s, phOffset, phSize, phCount);
      if scan.None? || scan.value.dynamic.None? || scan.value.dynamic.value.size % 16 != 0 then None
      else
        var dynamic, slots := scan.value.dynamic.value.fileOffset, scan.value.dynamic.value.size / 16;
        var count := EntryCount(s, dynamic, slots);
        var tables, sizes := ValuesOf(s, dynamic, count, DT_STRTAB), ValuesOf(s, dynamic, count, DT_STRSZ);
        if |tables| != 1 || |sizes| != 1 then None
        else
          var locations := Locations(scan.value.loads, tables[0], sizes[0]);
          if |locations| != 1 then None
          else
            assert locations[0] in locations;
            Some(Layout(phOffset, phSize, phCount, dynamic, slots, count, locations[0], sizes[0]))
  }

  /** Every later table access lies inside the file. */
  predicate InBounds(s: Bytes, t: Layout) {
    && |s| >= 58 && t.phSize >= 56 && t.phOffset + t.phCount * t.phSize <= |s|
    && t.dynamic + 16 * t.slots <= |s| && t.count <= t.slots
    && t.base + t.strings <= |s|
  }

  /** data.find(0, from, to) */
  function FindZero(s: Bytes, lo: nat, hi: nat): (r: Option<nat>)
    requires lo <= hi <= |s|
    ensures r.Some? ==> lo <= r.value < hi && s[r.value] == 0 && forall i :: lo <= i < r.value ==> s[i] != 0
    ensures r.None? ==> forall i :: lo <= i < hi ==> s[i] != 0
    decreases hi - lo
  {
    if lo == hi then None else if s[lo] == 0 then Some(lo) else FindZero(s, lo + 1, hi)
  }

  function NameAt(s: Bytes, base: nat, strings: nat, value: nat): Option<Bytes>
    requires base + strings <= |s|
  {
    if value >= strings then None
    else
      var end := FindZero(s, base + value, base + strings);
      if end.None? then None
      else
        var name := s[base + value..end.value];
        if forall i :: 0 <= i < |name| ==> name[i] < 128 then Some(name) else None
  }

  function TagAt(t: Layout, e: nat): nat { t.dynamic + 16 * e }

  /** The needed names a reader finds, in table order. */
  function NeededUpTo(s: Bytes, t: Layout, n: nat): Option<seq<Bytes>>
    requires InBounds(s, t) && n <= t.count
  {
    if n == 0 then Some([])
    else
      var previous := NeededUpTo(s, t, n - 1);
      if previous.None? || U64(s, TagAt(t, n - 1)) != DT_NEEDED then previous
      else
        var name := NameAt(s, t.base, t.strings, U64(s, TagAt(t, n - 1) + 8));
        if name.None? then None else Some(previous.value + [name.value])
  }

  /** What re-reading a file reports as needed. */
  function Needed(s: Bytes): Option<seq<Bytes>> {
    var t := LayoutOf(s);
    if t.None? then None else NeededUpTo(s, t.value, t.value.count)
  }

  // ------------------------------------------------------------- the rewriting

  function Patch(s: Bytes, o: nat): (r: Bytes)
    requires o + 8 <= |s|
    ensures |r| == |s| && U64(r, o) == DT_DEBUG
    ensures forall i :: 0 <= i < |s| && !(o <= i < o + 8) ==> r[i] == s[i]
  {
    s[..o] + [21, 0, 0, 0, 0, 0, 0, 0] + s[o + 8..]
  }

  datatype Stripped = Stripped(bytes: Bytes, removed: set<Bytes>)

  /** The first `n` entries, as read from `s`, handled against the bytes as they stand. */
  function StripUpTo(s: Bytes, t: Layout, n: nat, ignored: set<Bytes>): (r: Option<Stripped>)
    requires InBounds(s, t) && n <= t.count
    ensures r.Some? ==> |r.value.bytes| == |s| && r.value.removed <= ignored
  {
    if n == 0 then Some(Stripped(s, {}))
    else
      var previous := StripUpTo(s, t, n - 1, ignored);
      if previous.None? || U64(s, TagAt(t, n - 1)) != DT_NEEDED then previous
      else
        var name := NameAt(previous.value.bytes, t.base, t.strings, U64(s, TagAt(t, n - 1) + 8));
        if name.None? then None
        else if name.value !in ignored then previous
        else Some(Stripped(Patch(previous.value.bytes, TagAt(t, n - 1)), previous.value.removed + {name.value}))
  }

  // ---------------------------------------------------------- what it preserves

  /** Bytes outside [lo, hi) agree. */
  predicate SameOutside(a: Bytes, b: Bytes, lo: nat, hi: nat) {
    |a| == |b| && forall i :: 0 <= i < |a| && !(lo <= i < hi) ==> a[i] == b[i]
  }

  lemma U64Same(a: Bytes, b: Bytes, o: nat)
    requires o + 8 <= |a| && |a| == |b| && forall i :: o <= i < o + 8 ==> a[i] == b[i]
    ensures U64(a, o) == U64(b, o)
  {
  }

  /** Entry `e` of `s` needs a name that was ignored as the bytes stood when it was handled. */
  predicate MatchedEntry(s: Bytes, t: Layout, e: nat, ignored: set<Bytes>)
    requires InBounds(s, t) && e < t.count
  {
    var p := StripUpTo(s, t, e, ignored);
    && U64(s, TagAt(t, e)) == DT_NEEDED && p.Some?
    && var name := NameAt(p.value.bytes, t.base, t.strings, U64(s, TagAt(t, e) + 8));
       name.Some? && name.value in ignored
  }

  /** Byte `i` is a tag byte of such an entry. */
  ghost predicate TagByte(s: Bytes, t: Layout, n: nat, i: nat, ignored: set<Bytes>)
    requires InBounds(s, t) && n <= t.count
  {
    exists e :: 0 <= e < n && MatchedEntry(s, t, e, ignored) && TagAt(t, e) <= i < TagAt(t, e) + 8
  }

  /** Every byte that differs is a tag byte of a DT_NEEDED entry whose name was ignored when it
      was handled, and every such entry is tagged DT_DEBUG, whether or not the tables overlap. */
  lemma {:induction false} OnlyMatchedTagsChange(s: Bytes, t: Layout, n: nat, ignored: set<Bytes>)
    requires InBounds(s, t) && n <= t.count && StripUpTo(s, t, n, ignored).Some?
    ensures var r := StripUpTo(s, t, n, ignored).value.bytes;
            |r| == |s| && forall i :: 0 <= i < |s| && r[i] != s[i] ==> TagByte(s, t, n, i, ignored)
    ensures var r := StripUpTo(s, t, n, ignored).value.bytes;
            forall e :: 0 <= e < n && MatchedEntry(s, t, e, ignored) ==> U64(r, TagAt(t, e)) == DT_DEBUG
  {
    hide U64, NameAt;
    if n > 0 {
      OnlyMatchedTagsChange(s, t, n - 1, ignored);
      var p := StripUpTo(s, t, n - 1, ignored).value.bytes;
      var r := StripUpTo(s, t, n, ignored).value.bytes;
      forall i | 0 <= i < |s| && r[i] != s[i] ensures TagByte(s, t, n, i, ignored) {
        if TagAt(t, n - 1) <= i < TagAt(t, n - 1) + 8 && r != p {
          assert MatchedEntry(s, t, n - 1, ignored);
        } else {
          assert p[i] != s[i] && TagByte(s, t, n - 1, i, ignored);
          var e :| 0 <= e < n - 1 && MatchedEntry(s, t, e, ignored) && TagAt(t, e) <= i < TagAt(t, e) + 8;
        }
      }
      forall e | 0 <= e < n && MatchedEntry(s, t, e, ignored) ensures U64(r, TagAt(t, e)) == DT_DEBUG {
        if e < n - 1 { U64Same(p, r, TagAt(t, e)); }
      }
    }
  }

  /** The dynamic table overlaps neither the file header, nor the program headers, nor the strings. */
  predicate Apart(t: Layout) {
    var end := t.dynamic + 16 * t.slots;
    && t.dynamic >= 58
    && (end <= t.phOffset || t.phOffset + t.phCount * t.phSize <= t.dynamic)
    && (end <= t.base || t.base + t.strings <= t.dynamic)
  }

  /** The tag a rewritten entry carries: DT_DEBUG exactly where an ignored name was needed. */
  predicate Rewritten(s: Bytes, r: Bytes, t: Layout, e: nat, ignored: set<Bytes>)
    requires InBounds(s, t) && |r| == |s| && e < t.slots
  {
    var name := NameAt(s, t.base, t.strings, U64(s, TagAt(t, e) + 8));
    && U64(r, TagAt(t, e) + 8) == U64(s, TagAt(t, e) + 8)
    && U64(r, TagAt(t, e)) == (if U64(s, TagAt(t, e)) == DT_NEEDED && name.Some? && name.value in ignored
                               then DT_DEBUG else U64(s, TagAt(t, e)))
  }

  lemma {:induction false} FindZeroSame(a: Bytes, b: Bytes, lo: nat, hi: nat)
    requires lo <= hi <= |a| && |a| == |b| && forall i :: lo <= i < hi ==> a[i] == b[i]
    ensures FindZero(a, lo, hi) == FindZero(b, lo, hi)
    decreases hi - lo
  {
    if lo < hi && a[lo] != 0 { FindZeroSame(a, b, lo + 1, hi); }
  }

  lemma NameSame(a: Bytes, b: Bytes, base: nat, strings: nat, value: nat)
    requires base + strings <= |a| && |a| == |b| && forall i :: base <= i < base + strings ==> a[i] == b[i]
    ensures NameAt(a, base, strings, value) == NameAt(b, base, strings, value)
  {
    if value < strings {
      FindZeroSame(a, b, base + value, base + strings);
      var end := FindZero(a, base + value, base + strings);
      if end.Some? { assert a[base + value..end.value] == b[base + value..end.value]; }
    }
  }

  lemma PatchRewrites(s: Bytes, b: Bytes, t: Layout, n: nat, ignored: set<Bytes>)
    requires InBounds(s, t) && n < t.count && |b| == |s|
    requires forall e :: 0 <= e < n ==> Rewritten(s, b, t, e, ignored)
    requires forall i :: TagAt(t, n) <= i < TagAt(t, n) + 16 ==> b[i] == s[i]
    requires U64(s, TagAt(t, n)) == DT_NEEDED
    requires var name := NameAt(s, t.base, t.strings, U64(s, TagAt(t, n) + 8)); name.Some? && name.value in ignored
    ensures forall e :: 0 <= e <= n ==> Rewritten(s, Patch(b, TagAt(t, n)), t, e, ignored)
  {
    hide U64, NameAt;
    var r := Patch(b, TagAt(t, n));
    forall e | 0 <= e <= n ensures Rewritten(s, r, t, e, ignored) {
      if e < n {
        assert Rewritten(s, b, t, e, ignored);
        U64Same(b, r, TagAt(t, e));
        U64Same(b, r, TagAt(t, e) + 8);
      } else {
        U64Same(s, r, TagAt(t, n) + 8);
      }
    }
  }

  /** With the tables apart, stripping succeeds exactly when every needed name can be read; it
      retags exactly the ignored names and removes exactly those that were needed. */
  lemma {:induction false} StripMeaning(s: Bytes, t: Layout, n: nat, ignored: set<Bytes>)
    requires InBounds(s, t) && n <= t.count && Apart(t)
    ensures StripUpTo(s, t, n, ignored).Some? <==> NeededUpTo(s, t, n).Some?
    ensures StripUpTo(s, t, n, ignored).Some? ==>
              var r := StripUpTo(s, t, n, ignored).value;
              && SameOutside(s, r.bytes, t.dynamic, t.dynamic + 16 * n)
              && (forall e :: 0 <= e < n ==> Rewritten(s, r.bytes, t, e, ignored))
              && r.removed == (set name | name in NeededUpTo(s, t, n).value && name in ignored)
  {
    hide U64, NameAt;
    if n > 0 {
      StripMeaning(s, t, n - 1, ignored);
      var p := StripUpTo(s, t, n - 1, ignored);
      if p.Some? {
        var b := p.value.bytes;
        var value := U64(s, TagAt(t, n - 1) + 8);
        NameSame(s, b, t.base, t.strings, value);
        U64Same(s, b, TagAt(t, n - 1));
        U64Same(s, b, TagAt(t, n - 1) + 8);
        if U64(s, TagAt(t, n - 1)) == DT_NEEDED && NameAt(s, t.base, t.strings, value).Some?
           && NameAt(s, t.base, t.strings, value).value in ignored {
          PatchRewrites(s, b, t, n - 1, ignored);
        }
      }
    }
  }

  lemma HeadersSame(s: Bytes, r: Bytes)
    requires |s| == |r| && forall i :: 0 <= i < |s| && i < 58 ==> s[i] == r[i]
    ensures HeadersOf(s) == HeadersOf(r)
  {
    if |s| >= 58 {
      assert s[..6] == r[..6];
      U64Same(s, r, 32);
    }
  }

  lemma {:induction false} ScanSame(s: Bytes, r: Bytes, phOffset: nat, phSize: nat, n: nat)
    requires phSize >= 56 && phOffset + n * phSize <= |s| && |s| == |r|
    requires forall i :: phOffset <= i < phOffset + n * phSize ==> s[i] == r[i]
    ensures ScanUpTo(s, phOffset, phSize, n) == ScanUpTo(r, phOffset, phSize, n)
  {
    hide HeaderAt, ScanOne;
    if n > 0 {
      var before := (n - 1) * phSize;
      assert n * phSize == before + phSize;
      ScanSame(s, r, phOffset, phSize, n - 1);
      HeaderSame(s, r, phOffset + before);
    }
  }

  lemma HeaderSame(s: Bytes, r: Bytes, o: nat)
    requires o + 56 <= |s| && |s| == |r| && forall i :: o <= i < o + 56 ==> s[i] == r[i]
    ensures HeaderAt(s, o) == HeaderAt(r, o)
  {
    U64Same(s, r, o + 8);
    U64Same(s, r, o + 16);
    U64Same(s, r, o + 32);
  }

  lemma {:induction false} CountSame(s: Bytes, r: Bytes, offset: nat, slots: nat)
    requires offset + 16 * slots <= |s| && |s| == |r|
    requires forall k :: 0 <= k < slots ==> (U64(s, offset + 16 * k) == 0 <==> U64(r, offset + 16 * k) == 0)
    ensures EntryCount(s, offset, slots) == EntryCount(r, offset, slots)
    decreases slots
  {
    hide U64;
    if slots > 0 {
      assert U64(s, offset + 16 * 0) == 0 <==> U64(r, offset + 16 * 0) == 0;
      forall k | 0 <= k < slots - 1 ensures U64(s, offset + 16 + 16 * k) == 0 <==> U64(r, offset + 16 + 16 * k) == 0 {
        assert U64(s, offset + 16 * (k + 1)) == 0 <==> U64(r, offset + 16 * (k + 1)) == 0;
      }
      CountSame(s, r, offset + 16, slots - 1);
    }
  }

  lemma {:induction false} CountedEntriesLive(s: Bytes, offset: nat, slots: nat, k: nat)
    requires offset + 16 * slots <= |s| && k < EntryCount(s, offset, slots)
    ensures U64(s, offset + 16 * k) != 0
    decreases slots
  {
    hide U64;
    if k > 0 { CountedEntriesLive(s, offset + 16, slots - 1, k - 1); }
  }

  lemma {:induction false} ValuesSame(s: Bytes, r: Bytes, t: Layout, n: nat, ignored: set<Bytes>, tag: nat)
    requires InBounds(s, t) && n <= t.count && |r| == |s| && tag != DT_NEEDED && tag != DT_DEBUG
    requires forall e :: 0 <= e < n ==> Rewritten(s, r, t, e, ignored)
    ensures ValuesOf(s, t.dynamic, n, tag) == ValuesOf(r, t.dynamic, n, tag)
  {
    hide U64, NameAt;
    if n > 0 {
      ValuesSame(s, r, t, n - 1, ignored, tag);
      assert Rewritten(s, r, t, n - 1, ignored);
    }
  }

  function Without(names: seq<Bytes>, ignored: set<Bytes>): seq<Bytes> {
    if names == [] then []
    else Without(names[..|names| - 1], ignored)
         + (if names[|names| - 1] in ignored then [] else [names[|names| - 1]])
  }

  lemma {:induction false} NeededWithout(s: Bytes, r: Bytes, t: Layout, n: nat, ignored: set<Bytes>)
    requires InBounds(s, t) && n <= t.count && |r| == |s| && NeededUpTo(s, t, n).Some?
    requires forall e :: 0 <= e < n ==> Rewritten(s, r, t, e, ignored)
    requires forall i :: t.base <= i < t.base + t.strings ==> s[i] == r[i]
    ensures NeededUpTo(r, t, n) == Some(Without(NeededUpTo(s, t, n).value, ignored))
  {
    hide U64, NameAt;
    if n > 0 {
      NeededWithout(s, r, t, n - 1, ignored);
      assert Rewritten(s, r, t, n - 1, ignored);
      NameSame(s, r, t.base, t.strings, U64(s, TagAt(t, n - 1) + 8));
      if U64(s, TagAt(t, n - 1)) == DT_NEEDED {
        var before, names := NeededUpTo(s, t, n - 1).value, NeededUpTo(s, t, n).value;
        assert names[..|names| - 1] == before;
        assert Without(before, ignored) + [] == Without(before, ignored);
      }
    }
  }

  lemma LayoutKept(s: Bytes, r: Bytes, t: Layout, ignored: set<Bytes>)
    requires LayoutOf(s) == Some(t) && Apart(t) && SameOutside(s, r, t.dynamic, t.dynamic + 16 * t.count)
    requires forall e :: 0 <= e < t.count ==> Rewritten(s, r, t, e, ignored)
    ensures LayoutOf(r) == Some(t)
  {
    hide U64, NameAt, Locations;
    HeadersSame(s, r);
    ScanSame(s, r, t.phOffset, t.phSize, t.phCount);
    forall k | 0 <= k < t.slots ensures U64(s, t.dynamic + 16 * k) == 0 <==> U64(r, t.dynamic + 16 * k) == 0 {
      if k < t.count {
        assert Rewritten(s, r, t, k, ignored);
        CountedEntriesLive(s, t.dynamic, t.slots, k);
      } else {
        U64Same(s, r, t.dynamic + 16 * k);
      }
    }
    CountSame(s, r, t.dynamic, t.slots);
    ValuesSame(s, r, t, t.count, ignored, DT_STRTAB);
    ValuesSame(s, r, t, t.count, ignored, DT_STRSZ);
  }

  /** The whole rewriting, as a function of the file's bytes: the rewritten file, or an error. */
  function FilteredBytes(s: Bytes, ignored: set<Bytes>): Option<Bytes> {
    var t := LayoutOf(s);
    if t.None? then None
    else
      var r := StripUpTo(s, t.value, t.value.count, ignored);
      if r.None? || r.value.removed != ignored then None else Some(r.value.bytes)
  }

  /** The rewriting preserves meaning: if the dynamic table is apart from headers and strings,
      it succeeds exactly when every ignored name is needed (and all names can be read), and
      re-reading the result yields the original needed list minus exactly the ignored names,
      in order, from the same layout. */
  lemma RereadsWithoutIgnored(s: Bytes, ignored: set<Bytes>)
    requires LayoutOf(s).Some? && Apart(LayoutOf(s).value)
    ensures FilteredBytes(s, ignored).Some? <==>
              Needed(s).Some? && forall name :: name in ignored ==> name in Needed(s).value
    ensures FilteredBytes(s, ignored).Some? ==>
              var r := FilteredBytes(s, ignored).value;
              LayoutOf(r) == LayoutOf(s) && Needed(r) == Some(Without(Needed(s).value, ignored))
  {
    hide U64, NameAt, LayoutOf, Rewritten;
    var t := LayoutOf(s).value;
    StripMeaning(s, t, t.count, ignored);
    var r := StripUpTo(s, t, t.count, ignored);
    if r.Some? {
      var wanted := set name | name in NeededUpTo(s, t, t.count).value && name in ignored;
      assert wanted == ignored <==> forall name :: name in ignored ==> name in Needed(s).value;
      LayoutKept(s, r.value.bytes, t, ignored);
      NeededWithout(s, r.value.bytes, t, t.count, ignored);
    }
  }

  // ------------------------------------------------------------ the procedure

  datatype Entry = Entry(offset: nat, tag: nat, value: nat)

  ghost predicate EntriesOf(s: Bytes, dynamic: nat, entries: seq<Entry>) {
    && dynamic + 16 * |entries| <= |s|
    && forall e :: 0 <= e < |entries| ==>
         entries[e] == Entry(dynamic + 16 * e, U64(s, dynamic + 16 * e), U64(s, dynamic + 16 * e + 8))
  }

  method ScanHeaders(data: array<Byte>, phOffset: nat, phSize: nat, phCount: nat) returns (scan: Option<Scan>)
    requires phSize >= 56 && phOffset + phCount * phSize <= data.Length
    ensures scan == ScanUpTo(data[..], phOffset, phSize, phCount)
  {
    hide HeaderAt, ScanOne;
    scan := Some(Scan([], None));
    var offset := phOffset;
    for index := 0 to phCount
      invariant offset == phOffset + index * phSize && phOffset + index * phSize <= data.Length
      invariant scan == ScanUpTo(data[..], phOffset, phSize, index)
    {
      assert (index + 1) * phSize <= phCount * phSize;
      assert (index + 1) * phSize == index * phSize + phSize;
      scan := ScanOne(scan, HeaderAt(data[..], offset), data.Length);
      offset := offset + phSize;
    }
  }

  lemma {:induction false} CountIs(s: Bytes, offset: nat, slots: nat, n: nat)
    requires offset + 16 * slots <= |s| && n <= slots
    requires forall k :: 0 <= k < n ==> U64(s, offset + 16 * k) != 0
    requires n == slots || U64(s, offset + 16 * n) == 0
    ensures EntryCount(s, offset, slots) == n
    decreases slots
  {
    hide U64;
    if n > 0 {
      assert U64(s, offset + 16 * 0) != 0;
      forall k | 0 <= k < n - 1 ensures U64(s, offset + 16 + 16 * k) != 0 { assert U64(s, offset + 16 * (k + 1)) != 0; }
      CountIs(s, offset + 16, slots - 1, n - 1);
    }
  }

  method ReadEntries(data: array<Byte>, dynamic: nat, slots: nat) returns (entries: seq<Entry>)
    requires dynamic + 16 * slots <= data.Length
    ensures EntriesOf(data[..], dynamic, entries) && |entries| == EntryCount(data[..], dynamic, slots)
  {
    hide U64;
    entries := [];
    var offset := dynamic;
    while offset < dynamic + 16 * slots
      invariant offset == dynamic + 16 * |entries| && |entries| <= slots
      invariant EntriesOf(data[..], dynamic, entries)
      invariant forall e :: 0 <= e < |entries| ==> U64(data[..], dynamic + 16 * e) != 0
      decreases slots - |entries|
    {
      var tag, value := U64(data[..], offset), U64(data[..], offset + 8);
      if tag == 0 { break; }
      entries := entries + [Entry(offset, tag, value)];
      offset := offset + 16;
    }
    CountIs(data[..], dynamic, slots, |entries|);
  }

  method SelectValues(ghost s: Bytes, ghost dynamic: nat, entries: seq<Entry>, tag: nat) returns (values: seq<nat>)
    requires EntriesOf(s, dynamic, entries)
    ensures values == ValuesOf(s, dynamic, |entries|, tag)
  {
    hide U64;
    values := [];
    for e := 0 to |entries|
      invariant values == ValuesOf(s, dynamic, e, tag)
    {
      if entries[e].tag == tag { values := values + [entries[e].value]; }
    }
  }

  /** Overwrite matched tags in place, reading names from the bytes as they stand. */
  method Strip(data: array<Byte>, t: Layout, entries: seq<Entry>, ignored: set<Bytes>) returns (ok: bool)
    requires InBounds(data[..], t) && EntriesOf(data[..], t.dynamic, entries) && |entries| == t.count
    modifies data
    ensures var r := StripUpTo(old(data[..]), t, t.count, ignored);
            && (ok <==> r.Some? && r.value.removed == ignored)
            && (ok ==> data[..] == r.value.bytes)
  {
    hide U64, NameAt, EntryCount;
    ghost var s := data[..];
    var removed: set<Bytes> := {};
    for e := 0 to |entries|
      invariant StripUpTo(s, t, e, ignored) == Some(Stripped(data[..], removed))
    {
      assert entries[e] == Entry(TagAt(t, e), U64(s, TagAt(t, e)), U64(s, TagAt(t, e) + 8));
      assert StripUpTo(s, t, e + 1, ignored).None? ==> StripUpTo(s, t, t.count, ignored).None? by {
        if StripUpTo(s, t, e + 1, ignored).None? { StripStaysNone(s, t, e + 1, t.count, ignored); }
      }
      if entries[e].tag == DT_NEEDED {
        var name := NameAt(data[..], t.base, t.strings, entries[e].value);
        if name.None? { return false; }
        if name.value in ignored {
          ghost var before := data[..];
          var o := entries[e].offset;
          WriteDebugTag(data, o);
          assert data[..] == Patch(before, o);
          removed := removed + {name.value};
        }
      }
    }
    ok := removed == ignored;
  }

  /** struct.pack_into("<Q", data, o, 21) */
  method WriteDebugTag(data: array<Byte>, o: nat)
    requires o + 8 <= data.Length
    modifies data
    ensures data[..] == Patch(old(data[..]), o)
  {
    data[o] := 21;
    for i := 1 to 8
      invariant data[o] == 21 && forall j :: o + 1 <= j < o + i ==> data[j] == 0
      invariant forall j :: 0 <= j < data.Length && !(o <= j < o + i) ==> data[j] == old(data[j])
    {
      data[o + i] := 0;
    }
  }

  lemma {:induction false} StripStaysNone(s: Bytes, t: Layout, n: nat, m: nat, ignored: set<Bytes>)
    requires InBounds(s, t) && n <= m <= t.count && StripUpTo(s, t, n, ignored).None?
    ensures StripUpTo(s, t, m, ignored).None?
  {
    hide U64, NameAt, Patch;
    if n < m { StripStaysNone(s, t, n, m - 1, ignored); }
  }

  /** The file as inspected and as it is now. */
  datatype Inspection = Inspection(size: nat, digestMatches: bool, needed: seq<Bytes>)

  datatype Outcome = Filtered | SizeLimit | IdentityMismatch | InvalidOverride

  function Names(names: seq<Bytes>): set<Bytes> { set name | name in names }

  /** The written file, inspected again, needs what was needed without the ignored names. */
  predicate Confirmed(observed: Option<seq<Bytes>>, inspection: Inspection, ignored: set<Bytes>) {
    observed.Some? && Names(observed.value) == Names(inspection.needed) - ignored
  }

  lemma {:induction false} WithoutNames(names: seq<Bytes>, ignored: set<Bytes>)
    ensures Names(Without(names, ignored)) == Names(names) - ignored
  {
    if names != [] {
      var init, last := names[..|names| - 1], names[|names| - 1];
      WithoutNames(init, ignored);
      assert names == init + [last];
      NamesAppend(init, last);
      NamesAppend(Without(init, ignored), last);
      assert Without(init, ignored) + [] == Without(init, ignored);
    }
  }

  lemma NamesAppend(names: seq<Bytes>, name: Bytes)
    ensures Names(names + [name]) == Names(names) + {name}
  {
    forall x | x in Names(names) + {name} ensures x in Names(names + [name]) {
      if x == name { assert (names + [name])[|names|] == x; }
    }
  }

  /** An inspector that reads the needed names always confirms the rewriting of a file whose
      dynamic table is apart from headers and strings. */
  lemma InspectionConfirms(s: Bytes, ignored: set<Bytes>, inspect: Bytes -> Option<seq<Bytes>>, inspection: Inspection)
    requires LayoutOf(s).Some? && Apart(LayoutOf(s).value) && FilteredBytes(s, ignored).Some?
    requires inspect(FilteredBytes(s, ignored).value) == Needed(FilteredBytes(s, ignored).value)
    requires Some(inspection.needed) == Needed(s)
    ensures Confirmed(inspect(FilteredBytes(s, ignored).value), inspection, ignored)
  {
    hide LayoutOf, Needed, FilteredBytes, Apart;
    RereadsWithoutIgnored(s, ignored);
    WithoutNames(inspection.needed, ignored);
  }

  /** `_filtered_snapshot`; `inspect` is what readelf makes of the destination, which holds the
      final bytes of `data`. */
  method FilterSnapshot(data: array<Byte>, inspection: Inspection, ignored: set<Bytes>, inspect: Bytes -> Option<seq<Bytes>>)
    returns (outcome: Outcome)
    modifies data
    ensures outcome == SizeLimit <==> data.Length > MAX_FILE_BYTES
    ensures outcome == IdentityMismatch <==> data.Length <= MAX_FILE_BYTES && !inspection.digestMatches
    ensures outcome == Filtered <==>
              && data.Length <= MAX_FILE_BYTES && inspection.digestMatches && data.Length == inspection.size
              && FilteredBytes(old(data[..]), ignored).Some?
              && Confirmed(inspect(FilteredBytes(old(data[..]), ignored).value), inspection, ignored)
    ensures outcome == Filtered ==> data[..] == FilteredBytes(old(data[..]), ignored).value
  {
    hide U64, U16, NameAt, Locations, ScanUpTo, EntryCount, ValuesOf, StripUpTo;
    if data.Length > MAX_FILE_BYTES { return SizeLimit; }
    if !inspection.digestMatches { return IdentityMismatch; }
    if data.Length != inspection.size { return InvalidOverride; }
    var headers := HeadersOf(data[..]);
    if headers.None? { return InvalidOverride; }
    var (phOffset, phSize, phCount) := headers.value;
    var scan := ScanHeaders(data, phOffset, phSize, phCount);
    ScanInBounds(data[..], phOffset, phSize, phCount);
    if scan.None? || scan.value.dynamic.None? || scan.value.dynamic.value.size % 16 != 0 { return InvalidOverride; }
    var dynamic, slots := scan.value.dynamic.value.fileOffset, scan.value.dynamic.value.size / 16;
    var entries := ReadEntries(data, dynamic, slots);
    var tables := SelectValues(data[..], dynamic, entries, DT_STRTAB);
    var sizes := SelectValues(data[..], dynamic, entries, DT_STRSZ);
    if |tables| != 1 || |sizes| != 1 { return InvalidOverride; }
    var locations := Locations(scan.value.loads, tables[0], sizes[0]);
    if |locations| != 1 { return InvalidOverride; }
    assert locations[0] in locations;
    var layout := Layout(phOffset, phSize, phCount, dynamic, slots, |entries|, locations[0], sizes[0]);
    assert LayoutOf(data[..]) == Some(layout);
    var ok := Strip(data, layout, entries, ignored);
    if !ok { return InvalidOverride; }
    outcome := if Confirmed(inspect(data[..]), inspection, ignored) then Filtered else InvalidOverride;
  }
}
