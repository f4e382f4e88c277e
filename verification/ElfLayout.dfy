/** What the table reader finds in an ELF64 file, said without its loops: offsets and widths
    follow the System V gABI, chapter 5 (Program Header, Dynamic Section). */
module ElfLayout {
  import opened Wrappers
  import opened ElfSnapshot

  /** Eight little-endian bytes. */
  lemma LittleEndian(s: Bytes, o: nat)
    requires o + 8 <= |s|
    ensures U64(s, o) ==
      (s[o] as int) + 0x100 * (s[o + 1] as int) + 0x1_0000 * (s[o + 2] as int) + 0x100_0000 * (s[o + 3] as int)
      + 0x1_0000_0000 * ((s[o + 4] as int) + 0x100 * (s[o + 5] as int) + 0x1_0000 * (s[o + 6] as int) + 0x100_0000 * (s[o + 7] as int))
  {
  }

  // --------------------------------------------------------------- program headers

  /** The program headers: type at 0, file offset at 8, address at 16, size in the file at 32. */
  function Headers(s: Bytes, phOffset: nat, phSize: nat, n: nat): (hs: seq<Header>)
    requires phSize >= 56 && phOffset + n * phSize <= |s|
    ensures |hs| == n
    ensures forall i :: 0 <= i < n ==> IsHeader(s, phOffset + i * phSize, hs[i])
  {
    if n == 0 then []
    else
      assert n * phSize == (n - 1) * phSize + phSize;
      var o := phOffset + (n - 1) * phSize;
      Headers(s, phOffset, phSize, n - 1) + [Header(U32(s, o), Segment(U64(s, o + 8), U64(s, o + 16), U64(s, o + 32)))]
  }

  predicate IsHeader(s: Bytes, o: int, h: Header) {
    && 0 <= o && o + 56 <= |s| && h.kind == U32(s, o)
    && h.segment.fileOffset == U64(s, o + 8) && h.segment.address == U64(s, o + 16) && h.segment.size == U64(s, o + 32)
  }

  function ScanSeq(hs: seq<Header>, size: nat): Option<Scan> {
    if hs == [] then Some(Scan([], None)) else ScanOne(ScanSeq(hs[..|hs| - 1], size), hs[|hs| - 1], size)
  }

  lemma {:induction false} ScanReads(s: Bytes, phOffset: nat, phSize: nat, n: nat)
    requires phSize >= 56 && phOffset + n * phSize <= |s|
    ensures ScanUpTo(s, phOffset, phSize, n) == ScanSeq(Headers(s, phOffset, phSize, n), |s|)
  {
    if n > 0 {
      assert n * phSize == (n - 1) * phSize + phSize;
      ScanReads(s, phOffset, phSize, n - 1);
      assert Headers(s, phOffset, phSize, n)[..n - 1] == Headers(s, phOffset, phSize, n - 1);
    }
  }

  ghost predicate AllInFile(hs: seq<Header>, size: nat) {
    forall i :: 0 <= i < |hs| ==> hs[i].segment.fileOffset + hs[i].segment.size <= size
  }

  predicate NoDynamic(hs: seq<Header>) { forall i :: 0 <= i < |hs| ==> hs[i].kind != 2 }

  /** Header `i` is the only dynamic one. */
  ghost predicate OnlyDynamic(hs: seq<Header>, i: int) {
    0 <= i < |hs| && hs[i].kind == 2 && forall j :: 0 <= j < |hs| && hs[j].kind == 2 ==> j == i
  }

  lemma DynamicNone()
    ensures NoDynamic([]) && forall i :: !OnlyDynamic([], i)
  {}

  lemma DynamicAppend(init: seq<Header>, last: Header)
    ensures NoDynamic(init + [last]) <==> NoDynamic(init) && last.kind != 2
    ensures last.kind == 2 ==> forall i :: OnlyDynamic(init + [last], i) <==> i == |init| && NoDynamic(init)
    ensures last.kind != 2 ==> forall i :: OnlyDynamic(init + [last], i) <==> OnlyDynamic(init, i)
    ensures forall i :: OnlyDynamic(init, i) ==> 0 <= i < |init| && !NoDynamic(init)
    ensures (exists i :: OnlyDynamic(init + [last], i)) <==> if last.kind == 2 then NoDynamic(init) else exists i :: OnlyDynamic(init, i)
  {
    var hs := init + [last];
    assert hs[|init|] == last && forall i :: 0 <= i < |init| ==> hs[i] == init[i];
    if last.kind == 2 && NoDynamic(init) { assert OnlyDynamic(hs, |init|); }
  }

  /** The header loop succeeds exactly when every segment lies in the file and at most one is
      dynamic, and then it found that one. */
  lemma {:induction false} ScanExactly(hs: seq<Header>, size: nat)
    ensures var scan := ScanSeq(hs, size);
            && (scan.Some? <==> AllInFile(hs, size) && (NoDynamic(hs) || exists i :: OnlyDynamic(hs, i)))
            && (scan.Some? ==> (scan.value.dynamic.None? <==> NoDynamic(hs)))
            && (forall i :: scan.Some? && OnlyDynamic(hs, i) ==> scan.value.dynamic == Some(hs[i].segment))
  {
    hide OnlyDynamic, NoDynamic;
    if hs == [] {
      DynamicNone();
    } else {
      var init, last := hs[..|hs| - 1], hs[|hs| - 1];
      ScanExactly(init, size);
      assert hs == init + [last];
      DynamicAppend(init, last);
      assert AllInFile(hs, size) <==> AllInFile(init, size) && last.segment.fileOffset + last.segment.size <= size;
    }
  }

  // ---------------------------------------------------------------- dynamic entries

  /** The dynamic entries: tag at 0, value at 8. */
  function Entries(s: Bytes, offset: nat, n: nat): (es: seq<(nat, nat)>)
    requires offset + 16 * n <= |s|
    ensures |es| == n
    ensures forall i :: 0 <= i < n ==> es[i] == (U64(s, offset + 16 * i), U64(s, offset + 16 * i + 8))
  {
    if n == 0 then []
    else Entries(s, offset, n - 1) + [(U64(s, offset + 16 * (n - 1)), U64(s, offset + 16 * (n - 1) + 8))]
  }

  ghost predicate OnlyTag(es: seq<(nat, nat)>, tag: nat, i: int) {
    0 <= i < |es| && es[i].0 == tag && forall j :: 0 <= j < |es| && es[j].0 == tag ==> j == i
  }

  predicate NoTag(es: seq<(nat, nat)>, tag: nat) { forall i :: 0 <= i < |es| ==> es[i].0 != tag }

  lemma TagNone(tag: nat)
    ensures NoTag([], tag) && forall i :: !OnlyTag([], tag, i)
  {}

  lemma TagAppend(init: seq<(nat, nat)>, last: (nat, nat), tag: nat)
    ensures NoTag(init + [last], tag) <==> NoTag(init, tag) && last.0 != tag
    ensures last.0 == tag ==> forall i :: OnlyTag(init + [last], tag, i) <==> i == |init| && NoTag(init, tag)
    ensures last.0 != tag ==> forall i :: OnlyTag(init + [last], tag, i) <==> OnlyTag(init, tag, i)
    ensures forall i :: OnlyTag(init, tag, i) ==> 0 <= i < |init| && !NoTag(init, tag)
    ensures (exists i :: OnlyTag(init + [last], tag, i)) <==> if last.0 == tag then NoTag(init, tag) else exists i :: OnlyTag(init, tag, i)
  {
    var es := init + [last];
    assert es[|init|] == last && forall i :: 0 <= i < |init| ==> es[i] == init[i];
    if last.0 == tag && NoTag(init, tag) { assert OnlyTag(es, tag, |init|); }
  }

  /** One value is collected exactly when one entry carries the tag, and it is that value. */
  lemma {:induction false} ValuesExactly(s: Bytes, offset: nat, n: nat, tag: nat)
    requires offset + 16 * n <= |s|
    ensures var es, values := Entries(s, offset, n), ValuesOf(s, offset, n, tag);
            && (values == [] <==> NoTag(es, tag))
            && (|values| == 1 <==> exists i :: OnlyTag(es, tag, i))
            && (forall i :: OnlyTag(es, tag, i) ==> values == [es[i].1])
  {
    hide U64, OnlyTag, NoTag;
    if n == 0 {
      TagNone(tag);
    } else {
      ValuesExactly(s, offset, n - 1, tag);
      TagAppend(Entries(s, offset, n - 1), (U64(s, offset + 16 * (n - 1)), U64(s, offset + 16 * (n - 1) + 8)), tag);
    }
  }

  /** The live entries end before the first null tag. */
  lemma {:induction false} CountExactly(s: Bytes, offset: nat, slots: nat, n: nat)
    requires offset + 16 * slots <= |s|
    ensures n == EntryCount(s, offset, slots) <==>
      n <= slots && (forall i :: 0 <= i < n ==> U64(s, offset + 16 * i) != 0) && (n < slots ==> U64(s, offset + 16 * n) == 0)
    decreases slots
  {
    hide U64;
    if slots > 0 {
      if U64(s, offset) == 0 {
        assert offset + 16 * 0 == offset;
      } else if n > 0 {
        CountExactly(s, offset + 16, slots - 1, n - 1);
        assert offset + 16 + 16 * (n - 1) == offset + 16 * n;
        if n <= slots && forall i :: 0 <= i < n ==> U64(s, offset + 16 * i) != 0 {
          forall i | 0 <= i < n - 1 ensures U64(s, offset + 16 + 16 * i) != 0 {
            assert offset + 16 + 16 * i == offset + 16 * (i + 1);
          }
        }
        if n <= slots && forall i :: 0 <= i < n - 1 ==> U64(s, offset + 16 + 16 * i) != 0 {
          forall i | 0 <= i < n ensures U64(s, offset + 16 * i) != 0 {
            assert offset + 16 * 0 == offset;
            if i > 0 { assert offset + 16 * i == offset + 16 + 16 * (i - 1); }
          }
        }
      } else {
        assert offset + 16 * 0 == offset;
      }
    }
  }

  // ------------------------------------------------------------------ the string table

  /** A load segment that holds [table, table + size) in memory. */
  predicate Holds(h: Header, table: nat, size: nat) {
    h.kind == 1 && h.segment.address <= table && table + size <= h.segment.address + h.segment.size
  }

  ghost predicate OnlyHolder(hs: seq<Header>, table: nat, size: nat, i: int) {
    0 <= i < |hs| && Holds(hs[i], table, size) && forall j :: 0 <= j < |hs| && Holds(hs[j], table, size) ==> j == i
  }

  predicate NoHolder(hs: seq<Header>, table: nat, size: nat) { forall i :: 0 <= i < |hs| ==> !Holds(hs[i], table, size) }

  lemma HolderNone(table: nat, size: nat)
    ensures NoHolder([], table, size) && forall i :: !OnlyHolder([], table, size, i)
  {}

  lemma HolderAppend(init: seq<Header>, last: Header, table: nat, size: nat)
    ensures NoHolder(init + [last], table, size) <==> NoHolder(init, table, size) && !Holds(last, table, size)
    ensures Holds(last, table, size) ==> forall i :: OnlyHolder(init + [last], table, size, i) <==> i == |init| && NoHolder(init, table, size)
    ensures !Holds(last, table, size) ==> forall i :: OnlyHolder(init + [last], table, size, i) <==> OnlyHolder(init, table, size, i)
    ensures forall i :: OnlyHolder(init, table, size, i) ==> 0 <= i < |init| && !NoHolder(init, table, size)
    ensures (exists i :: OnlyHolder(init + [last], table, size, i)) <==>
      if Holds(last, table, size) then NoHolder(init, table, size) else exists i :: OnlyHolder(init, table, size, i)
  {
    var hs := init + [last];
    assert hs[|init|] == last && forall i :: 0 <= i < |init| ==> hs[i] == init[i];
    if Holds(last, table, size) && NoHolder(init, table, size) { assert OnlyHolder(hs, table, size, |init|); }
  }

  lemma LocationsAppend(before: seq<Segment>, last: Header, table: nat, size: nat)
    ensures var loads := if last.kind == 1 then before + [last.segment] else before;
            Locations(loads, table, size) == Locations(before, table, size)
              + (if Holds(last, table, size) then [last.segment.fileOffset + table - last.segment.address] else [])
  {
    assert (before + [last.segment])[..|before|] == before;
  }

  /** One location is found exactly when one load segment holds the table. */
  lemma {:induction false} LocationsExactly(hs: seq<Header>, limit: nat, table: nat, size: nat)
    requires ScanSeq(hs, limit).Some?
    ensures var found := Locations(ScanSeq(hs, limit).value.loads, table, size);
            && (found == [] <==> NoHolder(hs, table, size))
            && (|found| == 1 <==> exists i :: OnlyHolder(hs, table, size, i))
            && (forall i :: OnlyHolder(hs, table, size, i) ==> found == [hs[i].segment.fileOffset + table - hs[i].segment.address])
  {
    hide OnlyHolder, NoHolder, Holds;
    if hs == [] {
      HolderNone(table, size);
    } else {
      var init, last := hs[..|hs| - 1], hs[|hs| - 1];
      LocationsExactly(init, limit, table, size);
      assert hs == init + [last];
      HolderAppend(init, last, table, size);
      var before, loads := ScanSeq(init, limit).value.loads, ScanSeq(hs, limit).value.loads;
      LocationsAppend(before, last, table, size);
      assert loads == if last.kind == 1 then before + [last.segment] else before;
    }
  }

  // ------------------------------------------------------------------------ the layout

  /** Where everything is, as the file says it. */
  ghost predicate LaidOut(s: Bytes, t: Layout) {
    && |s| >= 58 && s[..6] == [0x7f, 0x45, 0x4c, 0x46, 2, 1]
    && t.phOffset == U64(s, 32) && t.phSize == U16(s, 54) && t.phCount == U16(s, 56)
    && t.phSize >= 56 && t.phCount <= 128 && t.phOffset + t.phCount * t.phSize <= |s|
    && var hs := Headers(s, t.phOffset, t.phSize, t.phCount);
       && AllInFile(hs, |s|)
       && (exists d :: OnlyDynamic(hs, d) && t.dynamic == hs[d].segment.fileOffset && 16 * t.slots == hs[d].segment.size)
       && t.dynamic + 16 * t.slots <= |s| && t.count <= t.slots
       && (forall i :: 0 <= i < t.count ==> U64(s, t.dynamic + 16 * i) != 0)
       && (t.count < t.slots ==> U64(s, t.dynamic + 16 * t.count) == 0)
       && StringsAt(hs, Entries(s, t.dynamic, t.count), t.base, t.strings)
  }

  /** The one string table address (tag 5) and size (tag 10), in the one load that holds it. */
  ghost predicate StringsAt(hs: seq<Header>, es: seq<(nat, nat)>, base: nat, strings: nat) {
    exists a, b, l ::
      && OnlyTag(es, 5, a) && OnlyTag(es, 10, b) && OnlyHolder(hs, es[a].1, es[b].1, l)
      && strings == es[b].1 && base == hs[l].segment.fileOffset + es[a].1 - hs[l].segment.address
  }

  /** The reader accepts exactly the files that are laid out, and finds exactly that layout. */
  lemma LayoutExactly(s: Bytes, t: Layout)
    ensures LayoutOf(s) == Some(t) <==> LaidOut(s, t)
  {
    hide U64, U16, ScanUpTo, EntryCount, ValuesOf, Locations, ScanSeq, OnlyTag, OnlyHolder, OnlyDynamic, AllInFile;
    if HeadersOf(s).Some? {
      var (phOffset, phSize, phCount) := HeadersOf(s).value;
      var hs := Headers(s, phOffset, phSize, phCount);
      ScanReads(s, phOffset, phSize, phCount);
      ScanExactly(hs, |s|);
      ScanInBounds(s, phOffset, phSize, phCount);
      var scan := ScanUpTo(s, phOffset, phSize, phCount);
      if scan.Some? && scan.value.dynamic.Some? && scan.value.dynamic.value.size % 16 == 0 {
        var dynamic, slots := scan.value.dynamic.value.fileOffset, scan.value.dynamic.value.size / 16;
        var count := EntryCount(s, dynamic, slots);
        CountExactly(s, dynamic, slots, count);
        if t.dynamic == dynamic && t.slots == slots { CountExactly(s, dynamic, slots, t.count); }
        StringsExactly(s, hs, dynamic, count, t.base, t.strings);
      }
    }
  }

  lemma StringsExactly(s: Bytes, hs: seq<Header>, dynamic: nat, count: nat, base: nat, strings: nat)
    requires dynamic + 16 * count <= |s| && ScanSeq(hs, |s|).Some?
    ensures var tables, sizes := ValuesOf(s, dynamic, count, DT_STRTAB), ValuesOf(s, dynamic, count, DT_STRSZ);
            StringsAt(hs, Entries(s, dynamic, count), base, strings) <==>
              && |tables| == 1 && |sizes| == 1 && sizes[0] == strings
              && Locations(ScanSeq(hs, |s|).value.loads, tables[0], sizes[0]) == [base]
  {
    hide U64, ScanSeq, ValuesOf, Locations;
    var es := Entries(s, dynamic, count);
    ValuesExactly(s, dynamic, count, DT_STRTAB);
    ValuesExactly(s, dynamic, count, DT_STRSZ);
    var tables, sizes := ValuesOf(s, dynamic, count, DT_STRTAB), ValuesOf(s, dynamic, count, DT_STRSZ);
    if |tables| == 1 && |sizes| == 1 {
      var a, b :| OnlyTag(es, 5, a) && OnlyTag(es, 10, b);
      LocationsExactly(hs, |s|, es[a].1, es[b].1);
    }
  }

  /** A name: the bytes from its offset up to the first zero, inside the table and ASCII. */
  lemma NameExactly(s: Bytes, base: nat, strings: nat, value: nat, name: Bytes)
    requires base + strings <= |s|
    ensures NameAt(s, base, strings, value) == Some(name) <==>
      && value + |name| < strings && s[base + value + |name|] == 0 && s[base + value..base + value + |name|] == name
      && forall i :: 0 <= i < |name| ==> 0 < name[i] < 128
  {
    if value + |name| < strings && s[base + value + |name|] == 0 && s[base + value..base + value + |name|] == name
       && forall i :: 0 <= i < |name| ==> 0 < name[i] < 128
    {
      var end := FindZero(s, base + value, base + strings);
      assert forall i :: base + value <= i < base + value + |name| ==> s[i] == name[i - base - value];
      assert end == Some(base + value + |name|);
    }
    var r := NameAt(s, base, strings, value);
    if r == Some(name) {
      var end := FindZero(s, base + value, base + strings).value;
      assert forall i :: 0 <= i < |name| ==> name[i] == s[base + value + i];
    }
  }
}
