// What the entries of a directory listing say (unpfs.rs, unpfs/utils.rs): the names and qids that the host
// gave, at consecutive offsets.
module Listings {
  import opened Wrappers
  import opened Protocol
  import opened Paging

  /** The entry at place `k` of a directory: ".", "..", or what the host said of its file `k - 2`. The next
      page goes on behind an entry by its offset, which is its place. */
  predicate Tells(e: DirEntry, h: Host, k: nat) {
    && e.typ == 0 && e.offset == k
    && if k == 0 then h.dot == Ok(e.qid) && e.name == [46]
       else if k == 1 then h.dotdot == Ok(e.qid) && e.name == [46, 46]
       else h.open.Ok? && k - 2 < |h.open.value| && h.open.value[k - 2] == Ok(File(e.qid, e.name))
  }

  /** A page that is asked for behind offset `off`, or from the beginning with offset 0. */
  predicate Lists(page: seq<DirEntry>, h: Host, off: nat) {
    forall j | 0 <= j < |page| :: Tells(page[j], h, if off == 0 then j else off + 1 + j)
  }

  lemma {:induction false} FillAdds(dir: seq<Result<File, Errno>>, i: nat, page: seq<DirEntry>, count: u32)
    requires |dir| < 0xffff_ffff_ffff_0000
    ensures match Fill(dir, i, page, count)
            case Ok(r) =>
              && page <= r
              && forall j | |page| <= j < |r| ::
                   var k := i + (j - |page|);
                   k < |dir| && dir[k] == Ok(File(r[j].qid, r[j].name)) && r[j].offset == k + 2 && r[j].typ == 0
            case Err(e) =>
              exists k | i <= k < |dir| :: dir[k] == Err(e) && forall j | i <= j < k :: dir[j].Ok?
    decreases |dir| - i
  {
    if i < |dir| && dir[i].Ok? {
      var e := EntryOf(dir[i].value, i);
      if (Total(page) + Size(e)) % WORD <= count {
        FillAdds(dir, i + 1, page + [e], count);
        var r := Fill(dir, i + 1, page + [e], count);
        if r.Ok? {
          assert r.value[|page|] == (page + [e])[|page|] == e;
          assert page == (page + [e])[..|page|] == r.value[..|page|];
        }
      }
    }
  }

  /** Every page, of any directory, holds the entries of consecutive places, with the host's names and qids. */
  lemma PageLists(h: Host, off: u64, count: u32)
    requires Bounded(h) && Page(h, off, count).Ok?
    ensures Lists(Page(h, off, count).value, h, off)
  {
    var page, dots := Page(h, off, count).value, Dots(h, off).value;
    FillAdds(h.open.value, Skipped(off), dots, count);
    forall j | 0 <= j < |page| ensures Tells(page[j], h, if off == 0 then j else off + 1 + j) {
      if j < |dots| {
        assert page[j] == dots[j];
      }
    }
  }

  /** A page fails with the first error of the host: for ".", for "..", for the directory, or for a file. Of
      the first three each makes it fail; a file does if the page reaches it. */
  lemma PageFails(h: Host, off: u64, count: u32)
    requires Bounded(h)
    ensures (off == 0 && (h.dot.Err? || h.dotdot.Err?)) || h.open.Err? ==> Page(h, off, count).Err?
    ensures Page(h, off, count).Err? ==>
              var e := Page(h, off, count).error;
              if off == 0 && h.dot.Err? then h.dot == Err(e)
              else if off == 0 && h.dotdot.Err? then h.dotdot == Err(e)
              else if h.open.Err? then h.open == Err(e)
              else
                var from := if off == 0 then 0 else off - 1;
                exists k | from <= k < |h.open.value| ::
                  h.open.value[k] == Err(e) && forall j | from <= j < k :: h.open.value[j].Ok?
  {
    if Dots(h, off).Ok? && h.open.Ok? {
      FillAdds(h.open.value, Skipped(off), Dots(h, off).value, count);
    }
  }

  // ----- the whole directory -----

  /** The bytes of the entries of files. */
  function FileBytes(files: seq<File>): nat {
    if files == [] then 0 else FileBytes(files[..|files| - 1]) + (24 + |files[|files| - 1].name|)
  }

  /** No sum of a page and one more entry can reach 2^32: the whole directory does not, or no entry does
      after the most that a page holds. */
  predicate Small(d: Dir, count: u32) {
    var most := if count < 51 then 51 else count as int;
    || 51 + FileBytes(d.files) < 0x1_0000_0000
    || (most + 26 < 0x1_0000_0000 && forall k | 0 <= k < |d.files| :: most + 24 + |d.files[k].name| < 0x1_0000_0000)
  }

  /** ".", "..", and each file by name and qid, in order. */
  predicate IsWhole(got: seq<DirEntry>, d: Dir) {
    && |got| == |d.files| + 2
    && got[0].name == [46] && got[0].qid == d.dot && got[1].name == [46, 46] && got[1].qid == d.dotdot
    && (forall k | 0 <= k < |d.files| :: got[k + 2].name == d.files[k].name && got[k + 2].qid == d.files[k].qid)
    && forall k | 0 <= k < |got| :: got[k].typ == 0 && got[k].offset == k
  }

  lemma WholeIsAll(got: seq<DirEntry>, d: Dir)
    requires d.Valid()
    ensures IsWhole(got, d) <==> got == All(d)
  {
    var es := All(d);
    assert es[0] == Dot(d.dot) && es[1] == DotDot(d.dotdot);
    assert forall k | 0 <= k < |d.files| :: es[k + 2] == EntryOf(d.files[k], k);
    if IsWhole(got, d) {
      forall k | 0 <= k < |es| ensures got[k] == es[k] {
        assert k >= 2 ==> got[(k - 2) + 2].name == d.files[k - 2].name;
      }
    }
  }

  lemma {:induction false} BytesOfFiles(d: Dir, n: nat)
    requires d.Valid() && n <= |d.files|
    ensures Bytes(All(d)[..n + 2]) == 51 + FileBytes(d.files[..n])
  {
    var es := All(d);
    if n == 0 {
      assert es[..2] == [Dot(d.dot), DotDot(d.dotdot)];
      DotBytes(d);
      assert d.files[..0] == [];
    } else {
      BytesOfFiles(d, n - 1);
      assert es[..n + 2][..n + 1] == es[..n + 1] && d.files[..n][..n - 1] == d.files[..n - 1];
      assert es[n + 1] == EntryOf(d.files[n - 1], n - 1);
    }
  }

  lemma SmallDoesNotWrap(d: Dir, count: u32)
    requires d.Valid() && Small(d, count)
    ensures NoWrap(All(d), count)
  {
    var es := All(d);
    BytesOfFiles(d, |d.files|);
    assert es[..|d.files| + 2] == es && d.files[..|d.files|] == d.files;
    if Bytes(es) >= WORD {
      forall k | 0 <= k < |es| ensures Most(count) + Length(es[k]) < WORD {
        assert es[0] == Dot(d.dot) && es[1] == DotDot(d.dotdot);
        assert k >= 2 ==> es[k] == EntryOf(d.files[k - 2], k - 2);
      }
    }
  }

  lemma LengthsOfFiles(d: Dir, count: nat)
    requires d.Valid()
    ensures (forall k | 2 <= k < |All(d)| :: Length(All(d)[k]) <= count)
            <==> forall k | 0 <= k < |d.files| :: 24 + |d.files[k].name| <= count
  {
    forall k | 0 <= k < |d.files| ensures Length(All(d)[k + 2]) == 24 + |d.files[k].name| {
      assert All(d)[k + 2] == EntryOf(d.files[k], k);
    }
    if forall k | 0 <= k < |d.files| :: 24 + |d.files[k].name| <= count {
      forall k | 2 <= k < |All(d)| ensures Length(All(d)[k]) <= count {
        assert Length(All(d)[(k - 2) + 2]) == 24 + |d.files[k - 2].name|;
      }
    }
  }

  /** A client that asks until a page is empty gets ".", ".." and every file of the directory once, by name
      and qid and in order, if and only if the entry of each file fits in a page of its own. */
  lemma ClientLists(d: Dir, count: u32)
    requires d.Valid() && Small(d, count)
    ensures NoWrap(All(d), count)
    ensures IsWhole(Client(d, 0, count), d)
            <==> forall k | 0 <= k < |d.files| :: 24 + |d.files[k].name| <= count
  {
    SmallDoesNotWrap(d, count);
    ClientGetsAll(d, count);
    WholeIsAll(Client(d, 0, count), d);
    LengthsOfFiles(d, count);
  }
}
