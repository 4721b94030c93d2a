/** The pages: reading and writing values that may run from one page into the next. */
module PagedStore {
  import opened Wrappers
  import opened PointerTracker
  import opened Layout

  /** One piece of a value: `length` bytes at `byteOffset` of page `page`, at `bufOffset` in the value. */
  datatype Section = Section(bufOffset: nat, page: nat, byteOffset: nat, length: nat)

  /** Where a value starts in its first page. */
  function ValueStart(c: Config, p: ValuePointer): nat {
    p.block * c.blockBytes
  }

  predicate StartsInPage(c: Config, p: ValuePointer) {
    ValueStart(c, p) < c.pageBytes
  }

  /** `value_len_pages`. */
  function ValueLenPages(c: Config, p: ValuePointer): nat
    requires StartsInPage(c, p)
  {
    DivCeil(ValueStart(c, p) + p.length, c.pageBytes)
  }

  /** An empty value still has one, empty, section. */
  function SectionCount(c: Config, p: ValuePointer): nat
    requires StartsInPage(c, p)
  {
    if p.length == 0 then 1 else ValueLenPages(c, p)
  }

  /** The `k`-th section of a value. */
  function SectionAt(c: Config, p: ValuePointer, k: nat): Section
    requires StartsInPage(c, p) && k < SectionCount(c, p)
  {
    SectionInBounds(c, p, k);
    if k == 0 then
      Section(0, p.page, ValueStart(c, p), Min(p.length, c.pageBytes - ValueStart(c, p)))
    else
      var done := k * c.pageBytes - ValueStart(c, p);
      Section(done, p.page + k, 0, Min(p.length - done, c.pageBytes))
  }

  lemma SectionInBounds(c: Config, p: ValuePointer, k: nat)
    requires StartsInPage(c, p) && 0 <= k < SectionCount(c, p)
    ensures k > 0 ==> ValueStart(c, p) < k * c.pageBytes < ValueStart(c, p) + p.length
  {
    if k > 0 {
      MulMonotone(1, k, c.pageBytes);
      var n := ValueLenPages(c, p);
      assert n * c.pageBytes < ValueStart(c, p) + p.length + c.pageBytes;
      MulMonotone(k, n - 1, c.pageBytes);
      assert (n - 1) * c.pageBytes == n * c.pageBytes - c.pageBytes;
    }
  }

  function SectionsOf(c: Config, p: ValuePointer): seq<Section>
    requires StartsInPage(c, p)
  {
    seq(SectionCount(c, p), k requires 0 <= k < SectionCount(c, p) => SectionAt(c, p, k))
  }

  /** The iterator over the sections of a value, run to its end. */
  method GetPageValueRanges(c: Config, p: ValuePointer) returns (sections: seq<Section>)
    requires StartsInPage(c, p)
    ensures sections == SectionsOf(c, p)
  {
    var page, start: nat := p.page, ValueStart(c, p);
    if p.length == 0 {
      return [Section(0, page, start, 0)];
    }
    var bufOffset: nat := 0;
    sections := [];
    EndOfSections(c, p, 0);
    while bufOffset < p.length
      invariant |sections| <= SectionCount(c, p)
      invariant bufOffset == BufferAfter(c, p, |sections|)
      invariant |sections| < SectionCount(c, p) <==> bufOffset < p.length
      invariant page == p.page + |sections| && start == if |sections| == 0 then ValueStart(c, p) else 0
      invariant sections == seq(|sections|, k requires 0 <= k < |sections| <= SectionCount(c, p) => SectionAt(c, p, k))
      decreases SectionCount(c, p) - |sections|
    {
      var remaining := p.length - bufOffset;
      var availableOnPage := c.pageBytes - start;
      var sectionLen := Min(remaining, availableOnPage);
      ghost var k := |sections|;
      SectionInBounds(c, p, k);
      assert Section(bufOffset, page, start, sectionLen) == SectionAt(c, p, k);
      sections := sections + [Section(bufOffset, page, start, sectionLen)];
      EndOfSections(c, p, k + 1);
      bufOffset := bufOffset + sectionLen;
      page := page + 1;
      start := 0;
    }
  }

  /** How much of the value the first `k` sections cover. */
  function BufferAfter(c: Config, p: ValuePointer, k: nat): nat {
    if k == 0 then 0
    else Min(p.length, if k * c.pageBytes >= ValueStart(c, p) then k * c.pageBytes - ValueStart(c, p) else 0)
  }

  lemma EndOfSections(c: Config, p: ValuePointer, k: nat)
    requires StartsInPage(c, p) && k <= SectionCount(c, p)
    ensures k < SectionCount(c, p) && p.length > 0 <==> BufferAfter(c, p, k) < p.length
    ensures 0 < k ==> var s := SectionAt(c, p, k - 1); s.bufOffset + s.length == BufferAfter(c, p, k)
  {
    if k > 0 {
      SectionsMeet(c, p, k);
    }
    if p.length > 0 {
      if k < SectionCount(c, p) {
        SectionInBounds(c, p, k);
      } else {
        LastSectionEnds(c, p);
      }
    }
  }

  lemma LastSectionEnds(c: Config, p: ValuePointer)
    requires StartsInPage(c, p) && p.length > 0
    ensures SectionCount(c, p) * c.pageBytes >= ValueStart(c, p) + p.length
  {
  }

  lemma SectionsMeet(c: Config, p: ValuePointer, k: nat)
    requires StartsInPage(c, p) && 0 < k <= SectionCount(c, p)
    ensures var s := SectionAt(c, p, k - 1); s.bufOffset + s.length == BufferAfter(c, p, k)
  {
    SectionInBounds(c, p, k - 1);
    assert k * c.pageBytes == (k - 1) * c.pageBytes + c.pageBytes;
  }

  // ---------------------------------------------------------------------------------------
  // Pages as one flat space of bytes
  // ---------------------------------------------------------------------------------------

  predicate Whole(pages: seq<seq<Byte>>, pageBytes: nat) {
    pageBytes > 0 && forall q :: 0 <= q < |pages| ==> |pages[q]| == pageBytes
  }

  lemma Located(count: nat, pageBytes: nat, a: nat)
    requires pageBytes > 0 && a < count * pageBytes
    ensures a / pageBytes < count && a == a / pageBytes * pageBytes + a % pageBytes
  {
    if a / pageBytes >= count {
      MulMonotone(count, a / pageBytes, pageBytes);
    }
  }

  lemma AddressOf(count: nat, pageBytes: nat, q: nat, r: nat)
    requires q < count && r < pageBytes
    ensures q * pageBytes + r < q * pageBytes + pageBytes <= count * pageBytes
    ensures (q * pageBytes + r) / pageBytes == q && (q * pageBytes + r) % pageBytes == r
  {
    MulMonotone(q + 1, count, pageBytes);
    var a := q * pageBytes + r;
    assert a == pageBytes * (a / pageBytes) + a % pageBytes;
    if a / pageBytes < q {
      MulMonotone(a / pageBytes + 1, q, pageBytes);
    } else if a / pageBytes > q {
      MulMonotone(q + 1, a / pageBytes, pageBytes);
    }
  }

  function Flat(pages: seq<seq<Byte>>, pageBytes: nat): (r: seq<Byte>)
    requires Whole(pages, pageBytes)
    ensures |r| == |pages| * pageBytes
  {
    seq(|pages| * pageBytes, a requires 0 <= a < |pages| * pageBytes =>
      Located(|pages|, pageBytes, a);
      pages[a / pageBytes][a % pageBytes])
  }

  lemma FlatSlice(pages: seq<seq<Byte>>, pageBytes: nat, q: nat, offset: nat, length: nat)
    requires Whole(pages, pageBytes) && q < |pages| && offset + length <= pageBytes
    ensures q * pageBytes + offset + length <= |Flat(pages, pageBytes)|
    ensures Flat(pages, pageBytes)[q * pageBytes + offset..q * pageBytes + offset + length] ==
              pages[q][offset..offset + length]
  {
    var flat, first := Flat(pages, pageBytes), q * pageBytes;
    AddressOf(|pages|, pageBytes, q, 0);
    forall r: nat | r < pageBytes ensures flat[first + r] == pages[q][r] {
      AddressOf(|pages|, pageBytes, q, r);
    }
    var a, b := flat[first + offset..first + offset + length], pages[q][offset..offset + length];
    forall i | 0 <= i < length ensures a[i] == b[i] {
      assert a[i] == flat[first + (offset + i)];
    }
  }

  lemma FlatSplice(pages: seq<seq<Byte>>, pageBytes: nat, q: nat, offset: nat, data: seq<Byte>)
    requires Whole(pages, pageBytes) && q < |pages| && offset + |data| <= pageBytes
    ensures var after := pages[q := Splice(pages[q], offset, data)];
            && Whole(after, pageBytes)
            && q * pageBytes + offset + |data| <= |Flat(pages, pageBytes)|
            && Flat(after, pageBytes) == Splice(Flat(pages, pageBytes), q * pageBytes + offset, data)
  {
    hide Splice;
    var after := pages[q := Splice(pages[q], offset, data)];
    var first := q * pageBytes;
    AddressOf(|pages|, pageBytes, q, 0);
    var flat, a := Flat(pages, pageBytes), Flat(after, pageBytes);
    forall i: nat | i < |flat| ensures a[i] == Splice(flat, first + offset, data)[i] {
      FlatSpliceByte(pages, pageBytes, q, offset, data, first, i);
    }
  }

  lemma FlatSpliceByte(pages: seq<seq<Byte>>, pageBytes: nat, q: nat, offset: nat, data: seq<Byte>, first: nat, i: nat)
    requires Whole(pages, pageBytes) && q < |pages| && offset + |data| <= pageBytes
    requires first == q * pageBytes && first + pageBytes <= |Flat(pages, pageBytes)| && i < |Flat(pages, pageBytes)|
    ensures var after := pages[q := Splice(pages[q], offset, data)];
            Flat(after, pageBytes)[i] == Splice(Flat(pages, pageBytes), first + offset, data)[i]
  {
    hide Splice;
    Located(|pages|, pageBytes, i);
    var x := i / pageBytes;
    SeparatePages(pageBytes, x, q);
    MulMonotone(x + 1, |pages|, pageBytes);
    SplicedByte(Flat(pages, pageBytes), pages, pageBytes, q, offset, data, first, x, i % pageBytes, x * pageBytes);
  }

  lemma FlatAppend(pages: seq<seq<Byte>>, pageBytes: nat, page: seq<Byte>)
    requires Whole(pages, pageBytes) && |page| == pageBytes
    ensures Whole(pages + [page], pageBytes) && Flat(pages + [page], pageBytes) == Flat(pages, pageBytes) + page
  {
    var n := |pages|;
    var a, b := Flat(pages + [page], pageBytes), Flat(pages, pageBytes) + page;
    assert (n + 1) * pageBytes == n * pageBytes + pageBytes;
    forall i: nat | i < |a| ensures a[i] == b[i] {
      if i < n * pageBytes {
        Located(n, pageBytes, i);
      } else {
        AddressOf(n + 1, pageBytes, n, i - n * pageBytes);
      }
    }
  }

  lemma SeparatePages(pageBytes: nat, x: nat, q: nat)
    ensures x < q ==> x * pageBytes + pageBytes <= q * pageBytes
    ensures q < x ==> q * pageBytes + pageBytes <= x * pageBytes
  {
    if x < q {
      MulMonotone(x + 1, q, pageBytes);
    } else if q < x {
      MulMonotone(q + 1, x, pageBytes);
    }
  }

  lemma SpliceAt(bytes: seq<Byte>, first: nat, data: seq<Byte>, i: nat)
    requires first + |data| <= |bytes| && i < |bytes|
    ensures Splice(bytes, first, data)[i] == if first <= i < first + |data| then data[i - first] else bytes[i]
  {
  }

  lemma SplicedByte(
    flat: seq<Byte>, pages: seq<seq<Byte>>, pageBytes: nat, q: nat, offset: nat, data: seq<Byte>,
    first: nat, x: nat, r: nat, start: nat)
    requires q < |pages| && x < |pages| && |pages[q]| == |pages[x]| == pageBytes
    requires offset + |data| <= pageBytes && r < pageBytes
    requires first + pageBytes <= |flat| && start + pageBytes <= |flat|
    requires if x == q then start == first else start + pageBytes <= first || first + pageBytes <= start
    requires flat[start + r] == pages[x][r]
    ensures pages[q := Splice(pages[q], offset, data)][x][r] == Splice(flat, first + offset, data)[start + r]
  {
    hide Splice;
    SpliceAt(flat, first + offset, data, start + r);
    SpliceAt(pages[q], offset, data, r);
  }

  lemma SpliceOn(bytes: seq<Byte>, first: nat, value: Value, done: nat, next: nat)
    requires first + |value| <= |bytes| && done <= next <= |value|
    ensures Splice(Splice(bytes, first, value[..done]), first + done, value[done..next]) ==
              Splice(bytes, first, value[..next])
  {
  }

  /** The value lies in `pages` pages; an empty one at least starts there. */
  predicate InPages(c: Config, p: ValuePointer, pages: nat) {
    StartsInPage(c, p) && p.page < pages && p.page * c.pageBytes + ValueStart(c, p) + p.length <= pages * c.pageBytes
  }

  /** Each section lies in one page, at the flat address that its place in the value says. */
  lemma SectionAddress(c: Config, p: ValuePointer, pages: nat, k: nat)
    requires InPages(c, p, pages) && k < SectionCount(c, p)
    ensures var s := SectionAt(c, p, k);
            && s.page < pages && s.byteOffset + s.length <= c.pageBytes && s.bufOffset + s.length <= p.length
            && s.page * c.pageBytes + s.byteOffset == p.page * c.pageBytes + ValueStart(c, p) + s.bufOffset
            && s.bufOffset == BufferAfter(c, p, k)
  {
    SectionInBounds(c, p, k);
    assert (p.page + k) * c.pageBytes == p.page * c.pageBytes + k * c.pageBytes;
    if k > 0 && p.page + k >= pages {
      MulMonotone(pages, p.page + k, c.pageBytes);
    }
  }

  lemma FlatAddress(c: Config, p: ValuePointer)
    requires c.Valid()
    ensures c.FirstByte(p) == p.page * c.pageBytes + ValueStart(c, p)
  {
    PageIsWholeRegions(c);
    MulAssociative(p.page, c.PageBlocks(), c.blockBytes);
  }

  class Pages {
    const config: Config
    var pages: seq<seq<Byte>>

    ghost predicate Valid()
      reads this
    {
      config.Valid() && Whole(pages, config.pageBytes)
    }

    ghost function Bytes(): seq<Byte>
      requires Valid()
      reads this
    {
      Flat(pages, config.pageBytes)
    }

    constructor (config: Config)
      requires config.Valid()
      ensures Valid() && this.config == config && pages == []
    {
      this.config := config;
      pages := [];
    }

    /** Attaches a new page of zeros. */
    method AttachPage()
      requires Valid()
      modifies this`pages
      ensures Valid() && |pages| == |old(pages)| + 1
      ensures Bytes() == old(Bytes()) + seq(config.pageBytes, _ => 0)
    {
      var page: seq<Byte> := seq(config.pageBytes, _ => 0);
      FlatAppend(pages, config.pageBytes, page);
      pages := pages + [page];
    }

    /** Writes a value, changing no byte outside its extent. */
    method WriteToPages(p: ValuePointer, value: Value)
      requires Valid() && InPages(config, p, |pages|) && |value| == p.length
      modifies this`pages
      ensures Valid() && |pages| == |old(pages)|
      ensures config.FirstByte(p) + |value| <= |old(Bytes())|
      ensures Bytes() == Splice(old(Bytes()), config.FirstByte(p), value)
    {
      hide Flat, Splice, SectionAt, BufferAfter, SectionCount, Config.FirstByte, Whole;
      ghost var before := Bytes();
      FlatAddress(config, p);
      var sections := GetPageValueRanges(config, p);
      ghost var first := config.FirstByte(p);
      var k := 0;
      EndOfSections(config, p, 0);
      NothingCovered(config, p);
      SpliceNothing(before, first, value);
      while k < |sections|
        invariant k <= |sections| && Valid() && |pages| == |old(pages)|
        invariant BufferAfter(config, p, k) <= |value|
        invariant Bytes() == Splice(before, first, value[..BufferAfter(config, p, k)])
      {
        var s := sections[k];
        SectionAddress(config, p, |pages|, k);
        EndOfSections(config, p, k + 1);
        var data := value[s.bufOffset..s.bufOffset + s.length];
        WholePage(pages, config.pageBytes, s.page);
        FlatSplice(pages, config.pageBytes, s.page, s.byteOffset, data);
        SpliceOn(before, first, value, s.bufOffset, s.bufOffset + s.length);
        pages := pages[s.page := Splice(pages[s.page], s.byteOffset, data)];
        k := k + 1;
      }
      EndOfSections(config, p, |sections|);
      AllCovered(config, p);
      assert value[..|value|] == value;
    }

    /**
     Reads a value, its sections arriving in the given order. A value in one page is handed out as it
     is; otherwise it is assembled in a buffer that starts uninitialized.
     */
    method ReadFromPages(p: ValuePointer, order: seq<nat>) returns (value: Value)
      requires Valid() && InPages(config, p, |pages|)
      requires Distinct(order) && forall k: nat :: k in order <==> k < SectionCount(config, p)
      ensures value == Read(config, Bytes(), p)
    {
      hide Flat, Splice, SectionAt, BufferAfter, Config.FirstByte, Whole, Read, Filled, Fill, InPages;
      ghost var whole := Read(config, Bytes(), p);
      ReadLength(config, pages, p);
      var lenPages := ValueLenPages(config, p);
      var buffer := if lenPages == 1 then [] else Uninitialized(p.length);
      ghost var done: set<nat> := {};
      NothingFilled(config, p, whole, buffer);
      var t := 0;
      while t < |order|
        invariant t <= |order| && forall k: nat :: k in done <==> k in order[..t]
        invariant lenPages == 1 ==> t == 0
        invariant lenPages != 1 ==> |buffer| == p.length
        invariant Filled(config, p, whole, buffer, done)
      {
        var k := order[t];
        assert k in order;
        var s := SectionsOf(config, p)[k];
        SectionAddress(config, p, |pages|, k);
        SectionBytes(config, pages, p, k);
        WholePage(pages, config.pageBytes, s.page);
        var bytes := pages[s.page][s.byteOffset..s.byteOffset + s.length];
        if lenPages == 1 {
          OneSectionIsAll(config, p, k);
          assert whole[0..p.length] == whole;
          return bytes;
        }
        FillSection(config, p, whole, buffer, done, k);
        buffer := Fill(buffer, s.bufOffset, bytes);
        assert order[..t + 1] == order[..t] + [k];
        done := done + {k};
        t := t + 1;
      }
      assert order[..|order|] == order;
      assert SectionCount(config, p) > 0 ==> 0 in order;
      AllFilled(config, p, whole, buffer, done);
      return AssumeInit(buffer);
    }

    /**
     Reads a batch of values whose sections arrive in any order, interleaved in any way, and records
     the calls of the callback: once for every slot, with the value, or with nothing for an empty slot.
     */
    method ReadBatchFromPages(pointers: seq<Option<ValuePointer>>, order: seq<(nat, nat)>) returns (calls: seq<Call>)
      requires Valid()
      requires forall i :: 0 <= i < |pointers| && pointers[i].Some? ==> InPages(config, pointers[i].value, |pages|)
      requires Distinct(order) && forall r :: r in order <==> IsRead(config, pointers, r)
      ensures forall j :: 0 <= j < |calls| ==> CallOk(config, Bytes(), pointers, calls[j])
      ensures forall i: nat :: i < |pointers| ==> Called(calls, i)
      ensures CallsOnce(calls)
    {
      hide Flat, Splice, SectionAt, BufferAfter, SectionCount, ValueLenPages, Config.FirstByte, Whole, Read, InPages,
        Deliver, Called, CallsOnce, SlotOk;
      ghost var flat := Bytes();
      var st := BatchState([], map[]);
      assert forall i :: 0 <= i < |pointers| && pointers[i].Some? ==> StartsInPage(config, pointers[i].value) by {
        AllStart(config, pointers, |pages|);
      }
      NothingDelivered(config, flat, pointers, order);
      var t := 0;
      while t < |order|
        invariant t <= |order| && BatchOk(config, flat, pointers, order, t, st)
      {
        var (i, k) := order[t];
        assert IsRead(config, pointers, order[t]);
        var p := pointers[i].value;
        var s := SectionsOf(config, p)[k];
        SectionAddress(config, p, |pages|, k);
        SectionBytes(config, pages, p, k);
        ReadLength(config, pages, p);
        WholePage(pages, config.pageBytes, s.page);
        var bytes := pages[s.page][s.byteOffset..s.byteOffset + s.length];
        DeliverKeeps(config, flat, pointers, order, t, st, bytes);
        st := Deliver(config, st, p, i, s, bytes);
        t := t + 1;
      }
      AllDelivered(config, flat, pointers, order, st);
      calls := st.calls;
      ghost var filled := |calls|;
      var e := 0;
      while e < |pointers|
        invariant e <= |pointers| && |calls| >= filled
        invariant forall j :: 0 <= j < |calls| ==> CallOk(config, flat, pointers, calls[j])
        invariant forall i: nat :: i < |pointers| ==> (Called(calls, i) <==> pointers[i].Some? || i < e)
        invariant CallsOnce(calls)
      {
        if pointers[e].None? {
          CallAdded(calls, Call(e, None));
          calls := calls + [Call(e, None)];
        }
        e := e + 1;
      }
    }
  }

  lemma WholePage(pages: seq<seq<Byte>>, pageBytes: nat, q: nat)
    requires Whole(pages, pageBytes) && q < |pages|
    ensures |pages[q]| == pageBytes
  {
  }

  lemma NothingCovered(c: Config, p: ValuePointer)
    ensures BufferAfter(c, p, 0) == 0
  {
  }

  lemma SpliceNothing(bytes: seq<Byte>, first: nat, value: Value)
    requires first + |value| <= |bytes|
    ensures Splice(bytes, first, value[..0]) == bytes
  {
  }

  lemma AllCovered(c: Config, p: ValuePointer)
    requires StartsInPage(c, p)
    ensures BufferAfter(c, p, SectionCount(c, p)) == p.length
  {
    EndOfSections(c, p, SectionCount(c, p));
  }

  // ---------------------------------------------------------------------------------------
  // Assembling a value from its sections
  // ---------------------------------------------------------------------------------------

  function Uninitialized(n: nat): seq<Option<Byte>> {
    seq(n, _ => None)
  }

  function Fill(buffer: seq<Option<Byte>>, offset: nat, bytes: seq<Byte>): (r: seq<Option<Byte>>)
    ensures |r| == |buffer|
  {
    seq(|buffer|, i requires 0 <= i < |buffer| =>
      if offset <= i < offset + |bytes| then Some(bytes[i - offset]) else buffer[i])
  }

  /** Takes the buffer as it is; what was never written would be arbitrary. */
  function AssumeInit(buffer: seq<Option<Byte>>): Value {
    seq(|buffer|, i requires 0 <= i < |buffer| => if buffer[i].Some? then buffer[i].value else 0)
  }

  /** The sections in `done` have been copied to their places in the buffer. */
  ghost predicate Filled(c: Config, p: ValuePointer, whole: Value, buffer: seq<Option<Byte>>, done: set<nat>)
    requires StartsInPage(c, p)
  {
    && |whole| == p.length
    && (forall k :: k in done ==> k < SectionCount(c, p))
    && (forall k, i: nat :: k in done && InSection(c, p, k, i) && i < |buffer| && i < |whole| ==>
      buffer[i] == Some(whole[i]))
  }

  predicate InSection(c: Config, p: ValuePointer, k: nat, i: nat)
    requires StartsInPage(c, p)
  {
    k < SectionCount(c, p) &&
      SectionAt(c, p, k).bufOffset <= i < SectionAt(c, p, k).bufOffset + SectionAt(c, p, k).length
  }

  lemma NothingFilled(c: Config, p: ValuePointer, whole: Value, buffer: seq<Option<Byte>>)
    requires StartsInPage(c, p) && |whole| == p.length
    ensures Filled(c, p, whole, buffer, {})
  {
  }

  lemma FillSection(c: Config, p: ValuePointer, whole: Value, buffer: seq<Option<Byte>>, done: set<nat>, k: nat)
    requires StartsInPage(c, p) && Filled(c, p, whole, buffer, done) && k < SectionCount(c, p)
    requires SectionAt(c, p, k).bufOffset + SectionAt(c, p, k).length <= |whole|
    ensures var s := SectionAt(c, p, k);
            Filled(c, p, whole, Fill(buffer, s.bufOffset, whole[s.bufOffset..s.bufOffset + s.length]), done + {k})
  {
    hide SectionAt;
  }

  /** The section that holds byte `i` of a value. */
  lemma SectionOf(c: Config, p: ValuePointer, i: nat) returns (k: nat)
    requires StartsInPage(c, p) && i < p.length
    ensures InSection(c, p, k, i)
  {
    var a := ValueStart(c, p) + i;
    k := a / c.pageBytes;
    assert a == c.pageBytes * k + a % c.pageBytes;
    var n := ValueLenPages(c, p);
    if k >= n {
      MulMonotone(n, k, c.pageBytes);
    }
    SectionInBounds(c, p, k);
  }

  lemma AllFilled(c: Config, p: ValuePointer, whole: Value, buffer: seq<Option<Byte>>, done: set<nat>)
    requires StartsInPage(c, p) && Filled(c, p, whole, buffer, done) && |buffer| == p.length
    requires forall k: nat :: k < SectionCount(c, p) ==> k in done
    ensures AssumeInit(buffer) == whole
  {
    forall i: nat | i < p.length ensures buffer[i] == Some(whole[i]) {
      var k := SectionOf(c, p, i);
      assert k in done;
    }
  }

  lemma ReadLength(c: Config, pages: seq<seq<Byte>>, p: ValuePointer)
    requires c.Valid() && Whole(pages, c.pageBytes) && InPages(c, p, |pages|)
    ensures |Read(c, Flat(pages, c.pageBytes), p)| == p.length && StartsInPage(c, p)
  {
    FlatAddress(c, p);
  }

  /** What a section reads is its part of the value. */
  lemma SectionBytes(c: Config, pages: seq<seq<Byte>>, p: ValuePointer, k: nat)
    requires c.Valid() && Whole(pages, c.pageBytes) && InPages(c, p, |pages|) && k < SectionCount(c, p)
    ensures var s := SectionAt(c, p, k);
            && s.page < |pages| && s.byteOffset + s.length <= |pages[s.page]|
            && s.bufOffset + s.length <= |Read(c, Flat(pages, c.pageBytes), p)|
            && pages[s.page][s.byteOffset..s.byteOffset + s.length]
               == Read(c, Flat(pages, c.pageBytes), p)[s.bufOffset..s.bufOffset + s.length]
  {
    hide Flat, SectionAt, BufferAfter;
    var s := SectionAt(c, p, k);
    SectionAddress(c, p, |pages|, k);
    FlatAddress(c, p);
    ReadLength(c, pages, p);
    FlatSlice(pages, c.pageBytes, s.page, s.byteOffset, s.length);
    hide InPages, Whole, SectionCount;
    SubSlice(Flat(pages, c.pageBytes), c.FirstByte(p), p.length, s.bufOffset, s.length);
  }

  lemma SubSlice(bytes: seq<Byte>, first: nat, length: nat, from: nat, n: nat)
    requires first + length <= |bytes| && from + n <= length
    ensures bytes[first..first + length][from..from + n] == bytes[first + from..first + from + n]
  {
    var a, b := bytes[first..first + length][from..from + n], bytes[first + from..first + from + n];
    forall i | 0 <= i < n ensures a[i] == b[i] {
      assert a[i] == bytes[first..first + length][from + i] == bytes[first + (from + i)];
    }
  }

  lemma OneSectionIsAll(c: Config, p: ValuePointer, k: nat)
    requires StartsInPage(c, p) && k < SectionCount(c, p) && ValueLenPages(c, p) <= 1
    ensures SectionCount(c, p) == 1 && k == 0
    ensures SectionAt(c, p, k).bufOffset == 0 && SectionAt(c, p, k).length == p.length
  {
  }

  // ---------------------------------------------------------------------------------------
  // Batches
  // ---------------------------------------------------------------------------------------

  datatype Call = Call(slot: nat, value: Option<Value>)

  /** A value in progress: its buffer and the number of sections read. */
  datatype Partial = Partial(buffer: seq<Option<Byte>>, pagesRead: nat)

  datatype BatchState = BatchState(calls: seq<Call>, pending: map<nat, Partial>)

  /** The reads of a batch: section `r.1` of the value in slot `r.0`. */
  predicate IsRead(c: Config, pointers: seq<Option<ValuePointer>>, r: (nat, nat)) {
    && r.0 < |pointers| && pointers[r.0].Some?
    && StartsInPage(c, pointers[r.0].value) && r.1 < SectionCount(c, pointers[r.0].value)
  }

  predicate Called(calls: seq<Call>, i: nat) {
    exists j :: 0 <= j < |calls| && calls[j].slot == i
  }

  ghost predicate CallsOnce(calls: seq<Call>) {
    forall j, l :: 0 <= j < l < |calls| ==> calls[j].slot != calls[l].slot
  }

  predicate CallOk(c: Config, flat: seq<Byte>, pointers: seq<Option<ValuePointer>>, call: Call)
    requires c.blockBytes > 0
  {
    && call.slot < |pointers|
    && call.value == match pointers[call.slot]
                     case Some(p) => Some(Read(c, flat, p))
                     case None => None
  }

  /** What one completed read does to its value: the value if it is complete, and what stays in progress. */
  function Arrive(c: Config, p: ValuePointer, started: Option<Partial>, s: Section, bytes: seq<Byte>)
    : (Option<Value>, Option<Partial>)
    requires StartsInPage(c, p)
  {
    var lenPages := ValueLenPages(c, p);
    if lenPages <= 1 then (Some(bytes), started)
    else
      var part := if started.Some? then started.value else Partial(Uninitialized(p.length), 0);
      var filled := Fill(part.buffer, s.bufOffset, bytes);
      if part.pagesRead + 1 >= lenPages then (Some(AssumeInit(filled)), None)
      else (None, Some(Partial(filled, part.pagesRead + 1)))
  }

  function Deliver(c: Config, st: BatchState, p: ValuePointer, i: nat, s: Section, bytes: seq<Byte>): BatchState
    requires StartsInPage(c, p)
  {
    var (value, left) := Arrive(c, p, Lookup(st.pending, i), s, bytes);
    BatchState(
      if value.Some? then st.calls + [Call(i, value)] else st.calls,
      if left.Some? then st.pending[i := left.value] else st.pending - {i})
  }

  /** The sections of slot `i` among the first `t` completed reads. */
  function Done(order: seq<(nat, nat)>, t: nat, i: nat): (r: set<nat>)
    requires t <= |order|
    ensures forall k: nat :: k in r <==> (i, k) in order[..t]
  {
    if t == 0 then {}
    else
      assert order[..t] == order[..t - 1] + [order[t - 1]];
      Done(order, t - 1, i) + if order[t - 1].0 == i then {order[t - 1].1} else {}
  }

  lemma SubsetSize(a: set<nat>, b: set<nat>)
    requires a <= b
    ensures |a| <= |b| && (|a| == |b| ==> a == b)
  {
    assert b == a + (b - a);
    assert |b| == |a| + |b - a|;
    if |a| == |b| { assert b - a == {}; }
  }

  /** A value of which the sections in `done` have been read. */
  ghost predicate ValueOk(c: Config, p: ValuePointer, whole: Value, done: set<nat>, called: bool,
                          part: Option<Partial>)
  {
    StartsInPage(c, p) &&
    var all := Below(SectionCount(c, p));
    && (called <==> done == all)
    && (part.Some? <==> done != {} && done != all)
    && (part.Some? ==>
          part.value.pagesRead == |done| && |part.value.buffer| == p.length &&
            Filled(c, p, whole, part.value.buffer, done))
  }

  ghost predicate SlotOk(
    c: Config, flat: seq<Byte>, pointers: seq<Option<ValuePointer>>, order: seq<(nat, nat)>, t: nat,
    st: BatchState, i: nat)
    requires c.blockBytes > 0 && t <= |order| && i < |pointers|
  {
    match pointers[i]
    case None => !Called(st.calls, i) && i !in st.pending
    case Some(p) => ValueOk(c, p, Read(c, flat, p), Done(order, t, i), Called(st.calls, i), Lookup(st.pending, i))
  }

  ghost predicate BatchOk(
    c: Config, flat: seq<Byte>, pointers: seq<Option<ValuePointer>>, order: seq<(nat, nat)>, t: nat, st: BatchState)
    requires c.blockBytes > 0 && t <= |order|
  {
    && (forall i: nat :: i < |pointers| ==> SlotOk(c, flat, pointers, order, t, st, i))
    && (forall i :: i in st.pending ==> i < |pointers|)
    && (forall j :: 0 <= j < |st.calls| ==> CallOk(c, flat, pointers, st.calls[j]))
    && CallsOnce(st.calls)
  }

  lemma NothingDelivered(c: Config, flat: seq<Byte>, pointers: seq<Option<ValuePointer>>, order: seq<(nat, nat)>)
    requires c.blockBytes > 0
    requires forall i :: 0 <= i < |pointers| && pointers[i].Some? ==> StartsInPage(c, pointers[i].value)
    ensures BatchOk(c, flat, pointers, order, 0, BatchState([], map[]))
  {
    forall i: nat | i < |pointers| ensures SlotOk(c, flat, pointers, order, 0, BatchState([], map[]), i) {
      if pointers[i].Some? {
        SomeSection(c, pointers[i].value);
        assert 0 in Below(SectionCount(c, pointers[i].value));
      }
    }
  }

  lemma AllStart(c: Config, pointers: seq<Option<ValuePointer>>, pages: nat)
    requires forall i :: 0 <= i < |pointers| && pointers[i].Some? ==> InPages(c, pointers[i].value, pages)
    ensures forall i :: 0 <= i < |pointers| && pointers[i].Some? ==> StartsInPage(c, pointers[i].value)
  {
  }

  lemma SomeSection(c: Config, p: ValuePointer)
    requires StartsInPage(c, p)
    ensures SectionCount(c, p) > 0
  {
  }

  lemma CallAdded(calls: seq<Call>, call: Call)
    requires CallsOnce(calls) && !Called(calls, call.slot)
    ensures CallsOnce(calls + [call])
    ensures forall i: nat :: Called(calls + [call], i) <==> Called(calls, i) || i == call.slot
  {
    var after := calls + [call];
    forall i: nat ensures Called(after, i) <==> Called(calls, i) || i == call.slot {
      if i == call.slot {
        assert after[|calls|].slot == i;
      } else if Called(calls, i) {
        var j :| 0 <= j < |calls| && calls[j].slot == i;
        assert after[j].slot == i;
      }
    }
  }

  /** A read adds its section to what its slot has, and nothing to any other slot. */
  lemma DoneGrows(order: seq<(nat, nat)>, t: nat, x: nat)
    requires t < |order| && Distinct(order)
    ensures var (i, k) := order[t];
            if x == i then k !in Done(order, t, i) && Done(order, t + 1, i) == Done(order, t, i) + {k}
            else Done(order, t + 1, x) == Done(order, t, x)
  {
    var (i, k) := order[t];
    assert forall j :: 0 <= j < t ==> order[..t][j] == order[j] && order[j] != order[t];
  }

  lemma DoneIsReads(c: Config, pointers: seq<Option<ValuePointer>>, order: seq<(nat, nat)>, t: nat, i: nat)
    requires t <= |order| && forall r :: r in order <==> IsRead(c, pointers, r)
    requires i < |pointers| && pointers[i].Some? && StartsInPage(c, pointers[i].value)
    ensures Done(order, t, i) <= Below(SectionCount(c, pointers[i].value))
    ensures t == |order| ==> Done(order, t, i) == Below(SectionCount(c, pointers[i].value))
  {
    forall k | k in Done(order, t, i) ensures k < SectionCount(c, pointers[i].value) {
      assert (i, k) in order;
    }
    if t == |order| {
      assert order[..t] == order;
      forall k: nat | k < SectionCount(c, pointers[i].value) ensures k in Done(order, t, i) {
        assert IsRead(c, pointers, (i, k));
      }
    }
  }

  lemma CountIsLength(c: Config, p: ValuePointer)
    requires StartsInPage(c, p)
    ensures if ValueLenPages(c, p) <= 1 then SectionCount(c, p) == 1 else SectionCount(c, p) == ValueLenPages(c, p)
  {
    if p.length == 0 && ValueLenPages(c, p) > 1 {
      MulMonotone(2, ValueLenPages(c, p), c.pageBytes);
    }
  }

  lemma ArriveKeeps(c: Config, p: ValuePointer, whole: Value, done: set<nat>, part: Option<Partial>, k: nat,
                    bytes: seq<Byte>)
    requires ValueOk(c, p, whole, done, false, part) && |whole| == p.length
    requires k < SectionCount(c, p) && k !in done && done <= Below(SectionCount(c, p))
    requires var s := SectionAt(c, p, k);
             s.bufOffset + s.length <= |whole| && bytes == whole[s.bufOffset..s.bufOffset + s.length]
    ensures var (value, left) := Arrive(c, p, part, SectionAt(c, p, k), bytes);
            && (value.Some? ==> value.value == whole)
            && ValueOk(c, p, whole, done + {k}, value.Some?, left)
  {
    hide Filled, SectionAt, AssumeInit, Fill, ValueLenPages, SectionCount, StartsInPage;
    CountIsLength(c, p);
    var n := SectionCount(c, p);
    SubsetSize(done + {k}, Below(n));
    if ValueLenPages(c, p) <= 1 {
      OneSectionIsAll(c, p, k);
      assert whole[0..|whole|] == whole;
      assert 0 !in done && done <= Below(1);
      assert done == {};
    } else {
      var started := if part.Some? then part.value else Partial(Uninitialized(p.length), 0);
      NothingFilled(c, p, whole, started.buffer);
      FillSection(c, p, whole, started.buffer, done, k);
      if started.pagesRead + 1 >= n {
        AllFilled(c, p, whole, Fill(started.buffer, SectionAt(c, p, k).bufOffset, bytes), done + {k});
      }
    }
  }

  lemma AllDelivered(c: Config, flat: seq<Byte>, pointers: seq<Option<ValuePointer>>, order: seq<(nat, nat)>,
                     st: BatchState)
    requires c.blockBytes > 0 && BatchOk(c, flat, pointers, order, |order|, st)
    requires forall r :: r in order <==> IsRead(c, pointers, r)
    ensures st.pending == map[] && CallsOnce(st.calls)
    ensures forall j :: 0 <= j < |st.calls| ==> CallOk(c, flat, pointers, st.calls[j])
    ensures forall i: nat :: i < |pointers| ==> (Called(st.calls, i) <==> pointers[i].Some?)
  {
    hide CallsOnce, Called, Filled, Read, Done;
    forall i: nat | i < |pointers|
      ensures i !in st.pending && (Called(st.calls, i) <==> pointers[i].Some?)
    {
      assert SlotOk(c, flat, pointers, order, |order|, st, i);
      if pointers[i].Some? {
        DoneIsReads(c, pointers, order, |order|, i);
      }
    }
  }

  lemma DeliverKeeps(
    c: Config, flat: seq<Byte>, pointers: seq<Option<ValuePointer>>, order: seq<(nat, nat)>, t: nat, st: BatchState,
    bytes: seq<Byte>)
    requires c.blockBytes > 0 && t < |order| && Distinct(order) && BatchOk(c, flat, pointers, order, t, st)
    requires forall r :: r in order <==> IsRead(c, pointers, r)
    requires IsRead(c, pointers, order[t])
    requires var p := pointers[order[t].0].value; var s := SectionAt(c, p, order[t].1); var whole := Read(c, flat, p);
             |whole| == p.length && s.bufOffset + s.length <= |whole| &&
               bytes == whole[s.bufOffset..s.bufOffset + s.length]
    ensures var p := pointers[order[t].0].value;
            BatchOk(c, flat, pointers, order, t + 1, Deliver(c, st, p, order[t].0, SectionAt(c, p, order[t].1), bytes))
  {
    hide CallsOnce, Called, ValueOk, SectionAt, SectionCount, Read, Arrive, Done;
    var (i, k) := order[t];
    var p := pointers[i].value;
    var whole := Read(c, flat, p);
    var (value, left) := Arrive(c, p, Lookup(st.pending, i), SectionAt(c, p, k), bytes);
    var after := Deliver(c, st, p, i, SectionAt(c, p, k), bytes);
    assert SlotOk(c, flat, pointers, order, t, st, i);
    DoneGrows(order, t, i);
    DoneIsReads(c, pointers, order, t, i);
    NotCalled(c, p, whole, Done(order, t, i), Called(st.calls, i), Lookup(st.pending, i), k);
    ArriveKeeps(c, p, whole, Done(order, t, i), Lookup(st.pending, i), k, bytes);
    if value.Some? { CallAdded(st.calls, Call(i, value)); }
    forall x: nat {:trigger Called(after.calls, x)} | x < |pointers|
      ensures SlotOk(c, flat, pointers, order, t + 1, after, x)
    {
      assert SlotOk(c, flat, pointers, order, t, st, x);
      DoneGrows(order, t, x);
    }
  }

  lemma NotCalled(c: Config, p: ValuePointer, whole: Value, done: set<nat>, called: bool, part: Option<Partial>, k: nat)
    requires ValueOk(c, p, whole, done, called, part) && k < SectionCount(c, p) && k !in done
    ensures !called
  {
  }
}
