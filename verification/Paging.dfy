// Reading a directory page by page (unpfs.rs rreaddir, with the sizes of fcall.rs).
module Paging {
  import opened Wrappers
  import opened Protocol
  import Codec
  import MessageLaws
  import Wire

  type Errno = nat

  datatype File = File(qid: Qid, name: Str)

  /** What the host answers: the qids of "." and "..", and the entries of the directory, each of which
      can fail to be read. */
  datatype Host = Host(dot: Result<Qid, Errno>, dotdot: Result<Qid, Errno>,
                       open: Result<seq<Result<File, Errno>>, Errno>)

  /** Offsets of entries fit in 64 bits. */
  predicate Bounded(h: Host) {
    h.open.Ok? ==> |h.open.value| < 0xffff_ffff_ffff_0000
  }

  // ----- sizes -----

  const WORD := 0x1_0000_0000

  /** `DirEntry::size`. */
  function Size(e: DirEntry): u32 {
    (24 + |e.name|) % WORD
  }

  /** `DirEntryData::size`, with the wrap-around of 32-bit addition. */
  function Total(es: seq<DirEntry>): u32 {
    if es == [] then 0 else (Total(es[..|es| - 1]) + Size(es[|es| - 1])) % WORD
  }

  lemma DotNames()
    ensures ValidUtf8([46]) && ValidUtf8([46, 46])
  {
    assert [46][1..] == [];
    assert [46, 46][1..] == [46];
  }

  function Dot(q: Qid): DirEntry {
    DotNames();
    DirEntry(q, 0, 0, [46])
  }

  function DotDot(q: Qid): DirEntry {
    DotNames();
    DirEntry(q, 1, 0, [46, 46])
  }

  function EntryOf(f: File, i: nat): DirEntry
    requires i + 2 < 0x1_0000_0000_0000_0000
  {
    DirEntry(f.qid, 2 + i, 0, f.name)
  }

  // ----- one page -----

  /** The entries from index `i` on that the page has room for. */
  function Fill(dir: seq<Result<File, Errno>>, i: nat, page: seq<DirEntry>, count: u32): Result<seq<DirEntry>, Errno>
    requires |dir| < 0xffff_ffff_ffff_0000
    decreases |dir| - i
  {
    if i >= |dir| then Ok(page)
    else
      match dir[i]
      case Err(e) => Err(e)
      case Ok(f) =>
        var e := EntryOf(f, i);
        if (Total(page) + Size(e)) % WORD > count then Ok(page)
        else Fill(dir, i + 1, page + [e], count)
  }

  function Dots(h: Host, off: u64): Result<seq<DirEntry>, Errno> {
    if off != 0 then Ok([])
    else
      var a :- h.dot;
      var b :- h.dotdot;
      Ok([Dot(a), DotDot(b)])
  }

  function Skipped(off: u64): nat {
    if off == 0 then 0 else off - 1
  }

  function Page(h: Host, off: u64, count: u32): Result<seq<DirEntry>, Errno>
    requires Bounded(h)
  {
    var dots :- Dots(h, off);
    var dir :- h.open;
    Fill(dir, Skipped(off), dots, count)
  }

  /** `rreaddir`. */
  method ReadDir(h: Host, off: u64, count: u32) returns (r: Result<seq<DirEntry>, Errno>)
    requires Bounded(h)
    ensures r == Page(h, off, count)
  {
    var dirents: seq<DirEntry> := [];
    var offset: int;
    if off == 0 {
      if h.dot.Err? {
        return Err(h.dot.error);
      }
      dirents := dirents + [Dot(h.dot.value)];
      if h.dotdot.Err? {
        return Err(h.dotdot.error);
      }
      dirents := dirents + [DotDot(h.dotdot.value)];
      offset := off;
    } else {
      offset := off - 1;
    }
    assert off == 0 ==> dirents == [Dot(h.dot.value), DotDot(h.dotdot.value)];
    assert Dots(h, off) == Ok(dirents);
    if h.open.Err? {
      return Err(h.open.error);
    }
    var dir := h.open.value;
    var i := offset;
    while i < |dir|
      invariant i >= offset
      invariant Page(h, off, count) == Fill(dir, i, dirents, count)
    {
      if dir[i].Err? {
        return Err(dir[i].error);
      }
      var dirent := EntryOf(dir[i].value, i);
      if (Total(dirents) + Size(dirent)) % WORD > count {
        break;
      }
      dirents := dirents + [dirent];
      i := i + 1;
    }
    r := Ok(dirents);
  }

  // ----- an unchanging directory -----

  /** A directory all of whose files can be read. */
  function Healthy(dot: Qid, dotdot: Qid, files: seq<File>): (h: Host)
  {
    Host(Ok(dot), Ok(dotdot), Ok(seq(|files|, i requires 0 <= i < |files| => Ok(files[i]))))
  }

  datatype Dir = Dir(dot: Qid, dotdot: Qid, files: seq<File>) {
    predicate Valid() {
      |files| < 0xffff_ffff_ffff_0000
    }

    function Host(): (h: Host)
      requires Valid()
      ensures Bounded(h)
    {
      Healthy(dot, dotdot, files)
    }
  }

  /** All entries: ".", "..", then the files. The entry at place `k` has offset `k`. */
  function All(d: Dir): (es: seq<DirEntry>)
    requires d.Valid()
    ensures |es| == |d.files| + 2
    ensures forall k | 0 <= k < |es| :: es[k].offset == k
  {
    [Dot(d.dot), DotDot(d.dotdot)] + seq(|d.files|, i requires 0 <= i < |d.files| => EntryOf(d.files[i], i))
  }

  function Length(e: DirEntry): nat {
    24 + |e.name|
  }

  function Bytes(es: seq<DirEntry>): nat {
    if es == [] then 0 else Bytes(es[..|es| - 1]) + Length(es[|es| - 1])
  }

  /** No sum of a page and one more entry can reach 2^32: the whole directory does not, or no entry does
      after the most that a page holds. */
  predicate NoWrap(es: seq<DirEntry>, count: u32) {
    Bytes(es) < WORD || forall k | 0 <= k < |es| :: Most(count) + Length(es[k]) < WORD
  }

  /** The most bytes that a page can have: those asked for, or the two dots. */
  function Most(count: u32): nat {
    if count < 51 then 51 else count
  }

  lemma {:induction false} TotalIsBytes(es: seq<DirEntry>)
    requires Bytes(es) < WORD
    ensures Total(es) == Bytes(es)
  {
    if es != [] {
      TotalIsBytes(es[..|es| - 1]);
    }
  }

  lemma BytesSnoc(es: seq<DirEntry>, e: DirEntry)
    ensures Bytes(es + [e]) == Bytes(es) + Length(e)
  {
    assert (es + [e])[..|es|] == es;
  }

  /** Where a page ends that has `size` bytes in it before entry `k`. */
  function End(es: seq<DirEntry>, k: nat, size: nat, count: nat): (end: nat)
    requires k <= |es|
    ensures k <= end <= |es|
    decreases |es| - k
  {
    if k == |es| || size + Length(es[k]) > count then k
    else End(es, k + 1, size + Length(es[k]), count)
  }

  predicate Lists(es: seq<DirEntry>, dir: seq<Result<File, Errno>>)
    requires |dir| < 0xffff_ffff_ffff_0000
  {
    && |es| == |dir| + 2
    && forall i | 0 <= i < |dir| :: dir[i].Ok? && es[i + 2] == EntryOf(dir[i].value, i)
  }

  lemma SliceGrows(page: seq<DirEntry>, es: seq<DirEntry>, k: nat, end: nat)
    requires k < end <= |es|
    ensures page + [es[k]] + es[k + 1..end] == page + es[k..end]
  {
  }

  /** Where nothing wraps, the page grows by the next entry if that fits. */
  lemma FillNext(dir: seq<Result<File, Errno>>, i: nat, page: seq<DirEntry>, count: u32)
    requires |dir| < 0xffff_ffff_ffff_0000 && i < |dir| && dir[i].Ok?
    requires Bytes(page) + Length(EntryOf(dir[i].value, i)) < WORD
    ensures var e := EntryOf(dir[i].value, i);
            Fill(dir, i, page, count)
            == if Bytes(page) + Length(e) > count then Ok(page) else Fill(dir, i + 1, page + [e], count)
  {
    TotalIsBytes(page);
    var e := EntryOf(dir[i].value, i);
    assert Size(e) == Length(e);
    assert (Total(page) + Size(e)) % WORD == Bytes(page) + Length(e);
  }

  lemma {:induction false} BytesAppend(a: seq<DirEntry>, b: seq<DirEntry>)
    ensures Bytes(a + b) == Bytes(a) + Bytes(b)
    decreases |b|
  {
    if b == [] {
      assert a + b == a;
    } else {
      assert a + b == a + b[..|b| - 1] + [b[|b| - 1]];
      BytesSnoc(a + b[..|b| - 1], b[|b| - 1]);
      BytesAppend(a, b[..|b| - 1]);
    }
  }

  lemma BytesFrom(es: seq<DirEntry>, k: nat)
    requires k < |es|
    ensures Bytes(es[k..]) == Length(es[k]) + Bytes(es[k + 1..])
  {
    assert es[k..] == [es[k]] + es[k + 1..];
    BytesAppend([es[k]], es[k + 1..]);
    BytesSnoc([], es[k]);
    assert [] + [es[k]] == [es[k]];
  }

  /** A page and all that could still be added to it stay below 2^32, or each entry does. */
  predicate Room(es: seq<DirEntry>, k: nat, page: seq<DirEntry>, count: u32)
    requires k <= |es|
  {
    || Bytes(page) + Bytes(es[k..]) < WORD
    || (Bytes(page) <= Most(count) && forall j | k <= j < |es| :: Most(count) + Length(es[j]) < WORD)
  }

  lemma RoomForNext(es: seq<DirEntry>, k: nat, page: seq<DirEntry>, count: u32)
    requires k < |es| && Room(es, k, page, count)
    ensures Bytes(page) + Length(es[k]) < WORD
    ensures Bytes(page) + Length(es[k]) <= count ==> Room(es, k + 1, page + [es[k]], count)
  {
    BytesFrom(es, k);
    BytesSnoc(page, es[k]);
  }

  lemma {:induction false} FillIsSlice(dir: seq<Result<File, Errno>>, es: seq<DirEntry>,
                                       i: nat, page: seq<DirEntry>, count: u32)
    requires |dir| < 0xffff_ffff_ffff_0000 && Lists(es, dir)
    requires i <= |dir| && Room(es, i + 2, page, count)
    ensures Fill(dir, i, page, count) == Ok(page + es[i + 2..End(es, i + 2, Bytes(page), count)])
    decreases |dir| - i
  {
    assert page + es[i + 2..i + 2] == page;
    if i < |dir| {
      var e := es[i + 2];
      RoomForNext(es, i + 2, page, count);
      FillNext(dir, i, page, count);
      if Bytes(page) + Length(e) <= count {
        BytesSnoc(page, e);
        FillIsSlice(dir, es, i + 1, page + [e], count);
        SliceGrows(page, es, i + 2, End(es, i + 2, Bytes(page), count));
      }
    }
  }

  /** A listing whose entries are numbered by their offsets. */
  predicate Numbered(es: seq<DirEntry>) {
    && 2 <= |es|
    && forall k | 0 <= k < |es| :: es[k].offset == k
  }

  lemma AllNumbered(d: Dir)
    requires d.Valid()
    ensures Numbered(All(d)) && Bytes(All(d)[..2]) == 51
  {
    DotBytes(d);
    assert All(d)[..2] == [Dot(d.dot), DotDot(d.dotdot)];
  }

  lemma DotBytes(d: Dir)
    ensures Bytes([Dot(d.dot), DotDot(d.dotdot)]) == 51
  {
    assert [] + [Dot(d.dot)] == [Dot(d.dot)];
    assert [Dot(d.dot)] + [DotDot(d.dotdot)] == [Dot(d.dot), DotDot(d.dotdot)];
    BytesSnoc([], Dot(d.dot));
    BytesSnoc([Dot(d.dot)], DotDot(d.dotdot));
  }

  /** The offset of the last entry of a page. */
  function Last(p: seq<DirEntry>): u64
    requires p != []
  {
    p[|p| - 1].offset
  }

  /** The entries a page holds, at offset 0 or after the entry with that offset. Every page but an
      empty one ends at a later offset than it was asked to start after. */
  function Slice(es: seq<DirEntry>, off: nat, count: nat): (p: seq<DirEntry>)
    requires Numbered(es)
    ensures p != [] ==> off < Last(p) < |es|
  {
    if off == 0 then es[..End(es, 2, 51, count)]
    else if off < |es| then es[off + 1..End(es, off + 1, 0, count)]
    else []
  }

  lemma WholeRoom(es: seq<DirEntry>, k: nat, page: seq<DirEntry>, count: u32)
    requires NoWrap(es, count) && k <= |es| && Bytes(page) <= Most(count) && Bytes(page) <= Bytes(es[..k])
    ensures Room(es, k, page, count)
  {
    assert es[..k] + es[k..] == es;
    BytesAppend(es[..k], es[k..]);
  }

  lemma FirstPage(d: Dir, count: u32)
    requires d.Valid() && NoWrap(All(d), count) && Numbered(All(d)) && Lists(All(d), d.Host().open.value)
    ensures Page(d.Host(), 0, count) == Ok(Slice(All(d), 0, count))
  {
    var es, dots := All(d), [Dot(d.dot), DotDot(d.dotdot)];
    var end := End(es, 2, 51, count);
    DotBytes(d);
    WholeRoom(es, 2, dots, count);
    FillIsSlice(d.Host().open.value, es, 0, dots, count);
    assert dots == es[..2] && dots + es[2..end] == es[..end];
  }

  lemma LaterPage(d: Dir, off: u64, count: u32)
    requires d.Valid() && NoWrap(All(d), count) && Numbered(All(d)) && Lists(All(d), d.Host().open.value)
    requires 0 < off < |All(d)|
    ensures Page(d.Host(), off, count) == Ok(Slice(All(d), off, count))
  {
    var es := All(d);
    var end := End(es, off + 1, 0, count);
    WholeRoom(es, off + 1, [], count);
    FillIsSlice(d.Host().open.value, es, off - 1, [], count);
    assert [] + es[off + 1..end] == es[off + 1..end];
  }

  /** A page is the run of entries after the given offset that fits. */
  lemma PageIsSlice(d: Dir, off: u64, count: u32)
    requires d.Valid() && NoWrap(All(d), count)
    ensures Numbered(All(d)) && Page(d.Host(), off, count) == Ok(Slice(All(d), off, count))
  {
    AllNumbered(d);
    assert Lists(All(d), d.Host().open.value);
    if off == 0 {
      FirstPage(d, count);
    } else if off < |All(d)| {
      LaterPage(d, off, count);
    }
  }

  lemma {:induction false} EndBytes(es: seq<DirEntry>, k: nat, page: seq<DirEntry>, count: nat)
    requires k <= |es| && Bytes(page) <= count
    ensures Bytes(page + es[k..End(es, k, Bytes(page), count)]) <= count
    decreases |es| - k
  {
    var end := End(es, k, Bytes(page), count);
    if end > k {
      BytesSnoc(page, es[k]);
      EndBytes(es, k + 1, page + [es[k]], count);
      SliceGrows(page, es, k, end);
    } else {
      assert page + es[k..k] == page;
    }
  }

  /** A page has no more bytes than asked for, except that the dots are always sent: they take 51. */
  lemma PageSize(es: seq<DirEntry>, off: nat, count: nat)
    requires Numbered(es) && Bytes(es[..2]) == 51
    ensures Bytes(Slice(es, off, count)) <= count <==> off != 0 || count >= 51
  {
    if off == 0 {
      var end := End(es, 2, 51, count);
      if count >= 51 {
        EndBytes(es, 2, es[..2], count);
        assert es[..2] + es[2..end] == es[..end];
      } else {
        assert end == 2;
      }
    } else if off < |es| {
      var end := End(es, off + 1, 0, count);
      EndBytes(es, off + 1, [], count);
      assert [] + es[off + 1..end] == es[off + 1..end];
    }
  }

  // ----- page after page -----

  /** What a client gets that asks again with the last offset it was given, until a page is empty. */
  function Enumerate(es: seq<DirEntry>, off: nat, count: nat): seq<DirEntry>
    requires Numbered(es)
    decreases if off < |es| then |es| - off else 0
  {
    var p := Slice(es, off, count);
    if p == [] then []
    else p + Enumerate(es, Last(p), count)
  }

  /** Every file after entry `k` fits in a page of its own. */
  predicate FitAfter(es: seq<DirEntry>, k: nat, count: nat) {
    forall j | k < j < |es| :: Length(es[j]) <= count
  }

  lemma EnumerateStep(es: seq<DirEntry>, off: nat, count: nat, p: seq<DirEntry>, last: nat, rest: seq<DirEntry>)
    requires Numbered(es) && Slice(es, off, count) == p && p != [] && Last(p) == last
    requires Enumerate(es, last, count) == rest
    ensures Enumerate(es, off, count) == p + rest
  {
  }

  lemma LastOfRun(es: seq<DirEntry>, from: nat, end: nat)
    requires Numbered(es) && from < end <= |es|
    ensures Last(es[from..end]) == end - 1
  {
    assert es[from..end][end - from - 1] == es[end - 1];
  }

  lemma Rejoin(es: seq<DirEntry>, from: nat, end: nat)
    requires from <= end <= |es|
    ensures es[from..end] + es[end..] == es[from..]
  {
  }

  /** The slice at `off` is a run of entries that ends before `end`. */
  lemma NextSlice(es: seq<DirEntry>, off: nat, count: nat) returns (end: nat, p: seq<DirEntry>)
    requires Numbered(es) && 0 < off && off + 1 < |es| && FitAfter(es, off, count)
    ensures off + 1 < end <= |es| && p == Slice(es, off, count) != [] && Last(p) == end - 1
    ensures p + es[end..] == es[off + 1..]
  {
    end := End(es, off + 1, 0, count);
    p := es[off + 1..end];
    LastOfRun(es, off + 1, end);
    Rejoin(es, off + 1, end);
  }

  lemma EnumerateRun(es: seq<DirEntry>, off: nat, count: nat) returns (last: nat, p: seq<DirEntry>)
    requires Numbered(es) && 0 < off && off + 1 < |es| && FitAfter(es, off, count)
    ensures off < last < |es| && p + es[last + 1..] == es[off + 1..]
    ensures Enumerate(es, off, count) == p + Enumerate(es, last, count)
  {
    var end;
    end, p := NextSlice(es, off, count);
    last := end - 1;
    EnumerateStep(es, off, count, p, last, Enumerate(es, last, count));
  }

  lemma EnumerateEnd(es: seq<DirEntry>, off: nat, count: nat)
    requires Numbered(es) && 0 < off && off + 1 == |es|
    ensures Enumerate(es, off, count) == []
  {
  }

  lemma {:induction false} EnumerateFrom(es: seq<DirEntry>, off: nat, count: nat)
    requires Numbered(es) && 0 < off < |es| && FitAfter(es, off, count)
    ensures Enumerate(es, off, count) == es[off + 1..]
    decreases |es| - off
  {
    if off + 1 < |es| {
      var last, p := EnumerateRun(es, off, count);
      EnumerateFrom(es, last, count);
    } else {
      EnumerateEnd(es, off, count);
    }
  }

  lemma {:induction false} EndStops(es: seq<DirEntry>, i: nat, size: nat, count: nat, k: nat)
    requires i <= k < |es| && Length(es[k]) > count
    ensures End(es, i, size, count) <= k
    decreases k - i
  {
    if i < k && size + Length(es[i]) <= count {
      EndStops(es, i + 1, size + Length(es[i]), count, k);
    }
  }

  lemma SliceStops(es: seq<DirEntry>, off: nat, count: nat, k: nat)
    requires Numbered(es) && off < k < |es| && k >= 2 && Length(es[k]) > count
    ensures forall e | e in Slice(es, off, count) :: e.offset < k
  {
    if off == 0 {
      EndStops(es, 2, 51, count, k);
    } else {
      EndStops(es, off + 1, 0, count, k);
    }
  }

  lemma {:induction false} EnumerateStops(es: seq<DirEntry>, off: nat, count: nat, k: nat)
    requires Numbered(es) && off < k < |es| && k >= 2 && Length(es[k]) > count
    ensures forall e | e in Enumerate(es, off, count) :: e.offset < k
    decreases |es| - off
  {
    var p := Slice(es, off, count);
    SliceStops(es, off, count, k);
    if p != [] {
      var last := Last(p);
      assert p[|p| - 1] in p;
      EnumerateStep(es, off, count, p, last, Enumerate(es, last, count));
      EnumerateStops(es, last, count, k);
    }
  }

  lemma EnumerateAll(es: seq<DirEntry>, count: nat)
    requires Numbered(es) && FitAfter(es, 1, count)
    ensures Enumerate(es, 0, count) == es
  {
    var end := End(es, 2, 51, count);
    assert es[..end] == es[0..end] && es[0..] == es;
    LastOfRun(es, 0, end);
    Rejoin(es, 0, end);
    EnumerateFrom(es, end - 1, count);
    EnumerateStep(es, 0, count, es[..end], end - 1, es[end..]);
  }

  /** Page after page gives ".", ".." and then every file exactly once and in order, if and only if
      the entry of each file fits in a page of its own. */
  lemma EnumerateIsComplete(es: seq<DirEntry>, count: nat)
    requires Numbered(es)
    ensures Enumerate(es, 0, count) == es <==> forall k | 2 <= k < |es| :: Length(es[k]) <= count
  {
    if FitAfter(es, 1, count) {
      EnumerateAll(es, count);
    } else {
      var k: nat :| 1 < k < |es| && Length(es[k]) > count;
      EnumerateStops(es, 0, count, k);
      assert es[k].offset == k && es[k] in es;
    }
  }

  /** Going on from any entry but "." continues with the next one. */
  lemma Resume(es: seq<DirEntry>, k: nat, count: nat)
    requires Numbered(es) && 0 < k < |es| && FitAfter(es, k, count)
    ensures Enumerate(es, es[k].offset, count) == es[k + 1..]
  {
    EnumerateFrom(es, k, count);
  }

  /** After "." it begins again. */
  lemma ResumeAtDot(es: seq<DirEntry>, count: nat)
    requires Numbered(es) && FitAfter(es, 1, count)
    ensures Enumerate(es, es[0].offset, count) == es
  {
    EnumerateAll(es, count);
  }

  /** The same with the pages that the server sends. */
  function Client(d: Dir, off: u64, count: u32): seq<DirEntry>
    requires d.Valid() && NoWrap(All(d), count)
    decreases if off < |All(d)| then |All(d)| - off else 0
  {
    PageIsSlice(d, off, count);
    var p := Page(d.Host(), off, count).value;
    if p == [] then [] else p + Client(d, Last(p), count)
  }

  lemma {:induction false} ClientIsEnumerate(d: Dir, off: u64, count: u32)
    requires d.Valid() && NoWrap(All(d), count)
    ensures Numbered(All(d)) && Client(d, off, count) == Enumerate(All(d), off, count)
    decreases if off < |All(d)| then |All(d)| - off else 0
  {
    PageIsSlice(d, off, count);
    var p := Slice(All(d), off, count);
    if p != [] {
      ClientIsEnumerate(d, Last(p), count);
    }
  }

  /** A client that reads an unchanging directory from the start gets ".", ".." and every file exactly
      once and in order, if and only if the entry of each file fits in a page of its own. */
  lemma ClientGetsAll(d: Dir, count: u32)
    requires d.Valid() && NoWrap(All(d), count)
    ensures Client(d, 0, count) == All(d) <==> forall k | 2 <= k < |All(d)| :: Length(All(d)[k]) <= count
  {
    ClientIsEnumerate(d, 0, count);
    EnumerateIsComplete(All(d), count);
  }

  // ----- pages on the wire -----

  lemma {:induction false} WireBytes(es: seq<DirEntry>)
    ensures |Wire.BytesAll(Codec.DirEntryItems(es))| == Bytes(es)
  {
    if es != [] {
      MessageLaws.LastEntry(es);
      WireBytes(es[..|es| - 1]);
    }
  }

  lemma TotalLast(es: seq<DirEntry>)
    requires es != []
    ensures Total(es) == (Total(es[..|es| - 1]) + (24 + |es[|es| - 1].name|) % 0x1_0000_0000) % 0x1_0000_0000
  {
  }

  lemma LastSize(es: seq<DirEntry>)
    requires es != []
    ensures var e := es[|es| - 1];
            Wire.EntriesSize(Codec.DirEntryItems(es))
            == (Wire.EntriesSize(Codec.DirEntryItems(es[..|es| - 1])) + (24 + |e.name|) % 0x1_0000_0000) % 0x1_0000_0000
  {
    MessageLaws.LastEntry(es);
  }

  lemma {:induction false} WireTotal(es: seq<DirEntry>)
    ensures Wire.EntriesSize(Codec.DirEntryItems(es)) == Total(es)
  {
    if es != [] {
      LastSize(es);
      TotalLast(es);
      WireTotal(es[..|es| - 1]);
    }
  }

  /** What the paging loop counts is what the codec writes. */
  lemma BytesOnTheWire(es: seq<DirEntry>)
    ensures |Wire.BytesAll(Codec.DirEntryItems(es))| == Bytes(es)
    ensures Wire.EntriesSize(Codec.DirEntryItems(es)) == Total(es)
  {
    WireBytes(es);
    WireTotal(es);
  }

  /** The entry bytes of the reply to a `Treaddir` stay within the count it asks for, except for the
      first page of a client that asks for less than the dots take. */
  lemma ReplyFitsTheCount(d: Dir, off: u64, count: u32)
    requires d.Valid() && NoWrap(All(d), count)
    ensures var reply := Page(d.Host(), off, count);
            && reply.Ok?
            && (|Wire.BytesAll(Codec.DirEntryItems(reply.value))| <= count <==> off != 0 || count >= 51)
  {
    PageIsSlice(d, off, count);
    AllNumbered(d);
    PageSize(All(d), off, count);
    BytesOnTheWire(Slice(All(d), off, count));
  }
}
