// The bytes of each message, field by field as the arms of `Msg::encode` list them (serialize.rs), with
// the codes of `MsgType` (fcall.rs): a reference that knows nothing of items, kinds and operands.
module WireFormat {
  import opened Wrappers
  import opened Protocol
  import opened Wire
  import opened Codec
  import opened Messages
  import MessageLaws
  import WireLaws

  // ----- fields -----

  function Cat(fields: seq<seq<u8>>): seq<u8> {
    if fields == [] then [] else fields[0] + Cat(fields[1..])
  }

  function B2(n: u16): seq<u8> {
    [n % 0x100, n / 0x100]
  }

  function B4(n: u32): seq<u8> {
    [n % 0x100, n / 0x100 % 0x100, n / 0x1_0000 % 0x100, n / 0x100_0000]
  }

  function B8(n: u64): seq<u8> {
    [n % 0x100, n / 0x100 % 0x100, n / 0x1_0000 % 0x100, n / 0x100_0000 % 0x100,
     n / 0x1_0000_0000 % 0x100, n / 0x100_0000_0000 % 0x100,
     n / 0x1_0000_0000_0000 % 0x100, n / 0x100_0000_0000_0000]
  }

  /** A string: the low two bytes of its length, and its bytes. */
  function S(s: Str): seq<u8> {
    B2(|s| % 0x1_0000) + s
  }

  function D(data: seq<u8>): seq<u8> {
    B4(|data| % 0x1_0000_0000) + data
  }

  function QidBytes(q: Qid): seq<u8> {
    Cat([[q.typ], B4(q.version), B8(q.path)])
  }

  /** A vector: the low two bytes of its length, and its elements. */
  function QidsBytes(qs: seq<Qid>): seq<u8> {
    B2(|qs| % 0x1_0000) + Cat(seq(|qs|, i requires 0 <= i < |qs| => QidBytes(qs[i])))
  }

  function NamesBytes(ss: seq<Str>): seq<u8> {
    B2(|ss| % 0x1_0000) + Cat(seq(|ss|, i requires 0 <= i < |ss| => S(ss[i])))
  }

  function StatfsBytes(s: Statfs): seq<u8> {
    Cat([B4(s.typ), B4(s.bsize), B8(s.blocks), B8(s.bfree), B8(s.bavail),
         B8(s.files), B8(s.ffree), B8(s.fsid), B4(s.namelen)])
  }

  function TimeBytes(t: Time): seq<u8> {
    Cat([B8(t.sec), B8(t.nsec)])
  }

  function StatBytes(s: Stat): seq<u8> {
    Cat([B4(s.mode), B4(s.uid), B4(s.gid), B8(s.nlink), B8(s.rdev), B8(s.size),
         B8(s.blksize), B8(s.blocks), TimeBytes(s.atime), TimeBytes(s.mtime), TimeBytes(s.ctime)])
  }

  function SetAttrBytes(s: SetAttr): seq<u8> {
    Cat([B4(s.mode), B4(s.uid), B4(s.gid), B8(s.size), TimeBytes(s.atime), TimeBytes(s.mtime)])
  }

  function DirEntryBytes(e: DirEntry): seq<u8> {
    Cat([QidBytes(e.qid), B8(e.offset), [e.typ], S(e.name)])
  }

  /** A listing: the number of its bytes, modulo 2^32, and its entries. */
  function ListingBytes(es: seq<DirEntry>): seq<u8> {
    var bs := Cat(seq(|es|, i requires 0 <= i < |es| => DirEntryBytes(es[i])));
    B4(|bs| % 0x1_0000_0000) + bs
  }

  function FlockBytes(f: Flock): seq<u8> {
    Cat([[f.typ], B4(f.flags), B8(f.start), B8(f.length), B4(f.procId), S(f.clientId)])
  }

  function GetlockBytes(f: Getlock): seq<u8> {
    Cat([[f.typ], B8(f.start), B8(f.length), B4(f.procId), S(f.clientId)])
  }

  // ----- messages -----

  // The type code of each message, and the fields behind its tag.

  function OpenLayout(f: Fcall): (u8, seq<seq<u8>>)
    requires OpenFamily(f)
  {
    match f
    case Rlerror(ecode) => (7, [B4(ecode)])
    case Tstatfs(fid) => (8, [B4(fid)])
    case Rstatfs(s) => (9, [StatfsBytes(s)])
    case Tlopen(fid, flags) => (12, [B4(fid), B4(flags)])
    case Rlopen(qid, iounit) => (13, [QidBytes(qid), B4(iounit)])
    case Tlcreate(fid, name, flags, mode, gid) => (14, [B4(fid), S(name), B4(flags), B4(mode), B4(gid)])
    case Rlcreate(qid, iounit) => (15, [QidBytes(qid), B4(iounit)])
  }

  function NodeLayout(f: Fcall): (u8, seq<seq<u8>>)
    requires NodeFamily(f)
  {
    match f
    case Tsymlink(fid, name, symtgt, gid) => (16, [B4(fid), S(name), S(symtgt), B4(gid)])
    case Rsymlink(qid) => (17, [QidBytes(qid)])
    case Tmknod(dfid, name, mode, major, minor, gid) =>
      (18, [B4(dfid), S(name), B4(mode), B4(major), B4(minor), B4(gid)])
    case Rmknod(qid) => (19, [QidBytes(qid)])
  }

  function ReadlinkLayout(f: Fcall): (u8, seq<seq<u8>>)
    requires ReadlinkFamily(f)
  {
    match f
    case Trename(fid, dfid, name) => (20, [B4(fid), B4(dfid), S(name)])
    case Rrename => (21, [])
    case Treadlink(fid) => (22, [B4(fid)])
    case Rreadlink(target) => (23, [S(target)])
  }

  function GetattrLayout(f: Fcall): (u8, seq<seq<u8>>)
    requires GetattrFamily(f)
  {
    match f
    case Tgetattr(fid, mask) => (24, [B4(fid), B8(mask)])
    case Rgetattr(valid, qid, stat) => (25, [B8(valid), QidBytes(qid), StatBytes(stat), B8(0), B8(0), B8(0), B8(0)])
  }

  function SetattrLayout(f: Fcall): (u8, seq<seq<u8>>)
    requires SetattrFamily(f)
  {
    match f
    case Tsetattr(fid, valid, attr) => (26, [B4(fid), B4(valid), SetAttrBytes(attr)])
    case Rsetattr => (27, [])
  }

  function XattrLayout(f: Fcall): (u8, seq<seq<u8>>)
    requires XattrFamily(f)
  {
    match f
    case Txattrwalk(fid, newfid, name) => (30, [B4(fid), B4(newfid), S(name)])
    case Rxattrwalk(size) => (31, [B8(size)])
    case Txattrcreate(fid, name, attrSize, flags) => (32, [B4(fid), S(name), B8(attrSize), B4(flags)])
    case Rxattrcreate => (33, [])
  }

  function DirLayout(f: Fcall): (u8, seq<seq<u8>>)
    requires DirFamily(f)
  {
    match f
    case Treaddir(fid, offset, count) => (40, [B4(fid), B8(offset), B4(count)])
    case Rreaddir(es) => (41, [ListingBytes(es)])
    case Tfsync(fid) => (50, [B4(fid)])
    case Rfsync => (51, [])
  }

  function LockLayout(f: Fcall): (u8, seq<seq<u8>>)
    requires LockFamily(f)
  {
    match f
    case Tlock(fid, flock) => (52, [B4(fid), FlockBytes(flock)])
    case Rlock(status) => (53, [[status]])
  }

  function LockQueryLayout(f: Fcall): (u8, seq<seq<u8>>)
    requires LockQueryFamily(f)
  {
    match f
    case Tgetlock(fid, lock) => (54, [B4(fid), GetlockBytes(lock)])
    case Rgetlock(lock) => (55, [GetlockBytes(lock)])
  }

  function LinkLayout(f: Fcall): (u8, seq<seq<u8>>)
    requires LinkFamily(f)
  {
    match f
    case Tlink(dfid, fid, name) => (70, [B4(dfid), B4(fid), S(name)])
    case Rlink => (71, [])
    case Tmkdir(dfid, name, mode, gid) => (72, [B4(dfid), S(name), B4(mode), B4(gid)])
    case Rmkdir(qid) => (73, [QidBytes(qid)])
  }

  function RenameLayout(f: Fcall): (u8, seq<seq<u8>>)
    requires RenameFamily(f)
  {
    match f
    case Trenameat(olddirfid, oldname, newdirfid, newname) =>
      (74, [B4(olddirfid), S(oldname), B4(newdirfid), S(newname)])
    case Rrenameat => (75, [])
    case Tunlinkat(dirfd, name, flags) => (76, [B4(dirfd), S(name), B4(flags)])
    case Runlinkat => (77, [])
  }

  function SessionLayout(f: Fcall): (u8, seq<seq<u8>>)
    requires SessionFamily(f)
  {
    match f
    case Tversion(msize, version) => (100, [B4(msize), S(version)])
    case Rversion(msize, version) => (101, [B4(msize), S(version)])
    case Tauth(afid, uname, aname, nUname) => (102, [B4(afid), S(uname), S(aname), B4(nUname)])
    case Rauth(qid) => (103, [QidBytes(qid)])
  }

  function AttachLayout(f: Fcall): (u8, seq<seq<u8>>)
    requires AttachFamily(f)
  {
    match f
    case Tattach(fid, afid, uname, aname, nUname) => (104, [B4(fid), B4(afid), S(uname), S(aname), B4(nUname)])
    case Rattach(qid) => (105, [QidBytes(qid)])
  }

  function WalkLayout(f: Fcall): (u8, seq<seq<u8>>)
    requires WalkFamily(f)
  {
    match f
    case Tflush(oldtag) => (108, [B2(oldtag)])
    case Rflush => (109, [])
    case Twalk(fid, newfid, names) => (110, [B4(fid), B4(newfid), NamesBytes(names)])
    case Rwalk(qids) => (111, [QidsBytes(qids)])
    case Tread(fid, offset, count) => (116, [B4(fid), B8(offset), B4(count)])
    case Rread(data) => (117, [D(data)])
  }

  function DataLayout(f: Fcall): (u8, seq<seq<u8>>)
    requires DataFamily(f)
  {
    match f
    case Twrite(fid, offset, data) => (118, [B4(fid), B8(offset), D(data)])
    case Rwrite(count) => (119, [B4(count)])
    case Tclunk(fid) => (120, [B4(fid)])
    case Rclunk => (121, [])
    case Tremove(fid) => (122, [B4(fid)])
    case Rremove => (123, [])
  }

  function Layout(f: Fcall): (u8, seq<seq<u8>>) {
    if OpenFamily(f) then OpenLayout(f)
    else if NodeFamily(f) then NodeLayout(f)
    else if ReadlinkFamily(f) then ReadlinkLayout(f)
    else if GetattrFamily(f) then GetattrLayout(f)
    else if SetattrFamily(f) then SetattrLayout(f)
    else if XattrFamily(f) then XattrLayout(f)
    else if DirFamily(f) then DirLayout(f)
    else if LockFamily(f) then LockLayout(f)
    else if LockQueryFamily(f) then LockQueryLayout(f)
    else if LinkFamily(f) then LinkLayout(f)
    else if RenameFamily(f) then RenameLayout(f)
    else if SessionFamily(f) then SessionLayout(f)
    else if AttachFamily(f) then AttachLayout(f)
    else if WalkFamily(f) then WalkLayout(f)
    else DataLayout(f)
  }

  /** The message as it goes over the wire, without the length of its frame. */
  function Frame(m: Msg): seq<u8> {
    [Layout(m.body).0] + B2(m.tag) + Cat(Layout(m.body).1)
  }

  // ----- integers -----

  lemma Divide(n: nat)
    ensures n / 0x100 / 0x100 == n / 0x1_0000
    ensures n / 0x1_0000 / 0x100 == n / 0x100_0000
    ensures n / 0x100_0000 / 0x100 == n / 0x1_0000_0000
    ensures n / 0x1_0000_0000 / 0x100 == n / 0x100_0000_0000
    ensures n / 0x100_0000_0000 / 0x100 == n / 0x1_0000_0000_0000
    ensures n / 0x1_0000_0000_0000 / 0x100 == n / 0x100_0000_0000_0000
  {
  }

  lemma Low(n: nat, w: nat)
    ensures LE(n, w + 1) == [n % 0x100] + LE(n / 0x100, w)
  {
  }

  lemma TwoLow(n: nat, w: nat)
    ensures LE(n, w + 2) == [n % 0x100, n / 0x100 % 0x100] + LE(n / 0x1_0000, w)
  {
    Low(n, w + 1);
    Low(n / 0x100, w);
    Divide(n);
    assert [n % 0x100] + ([n / 0x100 % 0x100] + LE(n / 0x1_0000, w))
        == [n % 0x100, n / 0x100 % 0x100] + LE(n / 0x1_0000, w);
  }

  lemma Glue(a: u8, b: u8, c: u8, d: u8, rest: seq<u8>)
    ensures [a, b] + ([c, d] + rest) == [a, b, c, d] + rest
  {
  }

  lemma FourLow(n: nat, w: nat)
    ensures LE(n, w + 4) == [n % 0x100, n / 0x100 % 0x100, n / 0x1_0000 % 0x100, n / 0x100_0000 % 0x100]
                            + LE(n / 0x1_0000_0000, w)
  {
    var h := n / 0x1_0000;
    TwoLow(n, w + 2);
    TwoLow(h, w);
    assert h / 0x100 == n / 0x100_0000 by { Divide(n); }
    assert h / 0x1_0000 == n / 0x1_0000_0000 by { Halves(n); }
    Glue(n % 0x100, n / 0x100 % 0x100, h % 0x100, h / 0x100 % 0x100, LE(h / 0x1_0000, w));
  }

  lemma Halves(n: nat)
    ensures n / 0x1_0000 / 0x1_0000 == n / 0x1_0000_0000
    ensures n / 0x1_0000_0000 / 0x1_0000 == n / 0x1_0000_0000_0000
    ensures n / 0x1_0000_0000 / 0x100_0000 == n / 0x100_0000_0000_0000
  {
  }

  lemma Byte1(n: u8)
    ensures LE(n, 1) == [n]
  {
    Low(n, 0);
  }

  lemma Bytes2(n: u16)
    ensures LE(n, 2) == B2(n)
  {
    TwoLow(n, 0);
  }

  lemma Bytes4(n: u32)
    ensures LE(n, 4) == B4(n)
  {
    FourLow(n, 0);
    assert n / 0x100_0000 % 0x100 == n / 0x100_0000;
    assert LE(n / 0x1_0000_0000, 0) == [];
  }

  lemma Bytes8(n: u64)
    ensures LE(n, 8) == B8(n)
  {
    var h := n / 0x1_0000_0000;
    FourLow(n, 4);
    Bytes4(h);
    Divide(n);
    Halves(n);
    assert h / 0x100 == n / 0x100_0000_0000;
    assert LE(n, 8) == [n % 0x100, n / 0x100 % 0x100, n / 0x1_0000 % 0x100, n / 0x100_0000 % 0x100] + B4(h);
  }

  // ----- items -----

  lemma {:induction false} FieldByField(xs: seq<Item>, fields: seq<seq<u8>>)
    requires |xs| == |fields| && forall i | 0 <= i < |xs| :: Bytes(xs[i]) == fields[i]
    ensures BytesAll(xs) == Cat(fields)
  {
    if xs != [] {
      FieldByField(xs[1..], fields[1..]);
    }
  }

  lemma W1(n: u8)
    ensures Bytes(U8(n)) == [n] && Bytes(Flags(1, n)) == [n]
  {
    Byte1(n);
  }

  lemma W2(n: u16)
    ensures Bytes(U16(n)) == B2(n)
  {
    Bytes2(n);
  }

  lemma W4(n: u32)
    ensures Bytes(U32(n)) == B4(n) && Bytes(Flags(4, n)) == B4(n)
  {
    Bytes4(n);
  }

  lemma W8(n: u64)
    ensures Bytes(U64(n)) == B8(n) && Bytes(Flags(8, n)) == B8(n)
  {
    Bytes8(n);
  }

  lemma W0()
    ensures Bytes(Zero) == B8(0)
  {
    Bytes8(0);
  }

  lemma WS(s: Str)
    ensures Bytes(Text(s)) == S(s)
  {
    Bytes2(|s| % 0x1_0000);
  }

  lemma WD(d: seq<u8>)
    ensures Bytes(Blob(d)) == D(d)
  {
    Bytes4(|d| % 0x1_0000_0000);
  }

  lemma WQid(q: Qid)
    ensures Bytes(QidItem(q)) == QidBytes(q)
  {
    W1(q.typ); W4(q.version); W8(q.path);
    FieldByField(QidItem(q).fields, [[q.typ], B4(q.version), B8(q.path)]);
  }

  lemma WStatfs(s: Statfs)
    ensures Bytes(StatfsItem(s)) == StatfsBytes(s)
  {
    W4(s.typ); W4(s.bsize); W8(s.blocks); W8(s.bfree); W8(s.bavail); W8(s.files); W8(s.ffree);
    W8(s.fsid); W4(s.namelen);
    FieldByField(StatfsItem(s).fields,
                 [B4(s.typ), B4(s.bsize), B8(s.blocks), B8(s.bfree), B8(s.bavail), B8(s.files), B8(s.ffree),
                  B8(s.fsid), B4(s.namelen)]);
  }

  lemma WTime(t: Time)
    ensures Bytes(TimeItem(t)) == TimeBytes(t)
  {
    W8(t.sec); W8(t.nsec);
    FieldByField(TimeItem(t).fields, [B8(t.sec), B8(t.nsec)]);
  }

  lemma WStat(s: Stat)
    ensures Bytes(StatItem(s)) == StatBytes(s)
  {
    W4(s.mode); W4(s.uid); W4(s.gid); W8(s.nlink); W8(s.rdev); W8(s.size); W8(s.blksize);
    W8(s.blocks); WTime(s.atime); WTime(s.mtime); WTime(s.ctime);
    FieldByField(StatItem(s).fields,
                 [B4(s.mode), B4(s.uid), B4(s.gid), B8(s.nlink), B8(s.rdev), B8(s.size), B8(s.blksize),
                  B8(s.blocks), TimeBytes(s.atime), TimeBytes(s.mtime), TimeBytes(s.ctime)]);
  }

  lemma WSetAttr(s: SetAttr)
    ensures Bytes(SetAttrItem(s)) == SetAttrBytes(s)
  {
    W4(s.mode); W4(s.uid); W4(s.gid); W8(s.size); WTime(s.atime); WTime(s.mtime);
    FieldByField(SetAttrItem(s).fields,
                 [B4(s.mode), B4(s.uid), B4(s.gid), B8(s.size), TimeBytes(s.atime), TimeBytes(s.mtime)]);
  }

  lemma WDirEntry(e: DirEntry)
    ensures Bytes(DirEntryItem(e)) == DirEntryBytes(e)
  {
    WQid(e.qid); W8(e.offset); W1(e.typ); WS(e.name);
    FieldByField(DirEntryItem(e).fields, [QidBytes(e.qid), B8(e.offset), [e.typ], S(e.name)]);
  }

  lemma WFlock(f: Flock)
    ensures Bytes(FlockItem(f)) == FlockBytes(f)
  {
    W1(f.typ); W4(f.flags); W8(f.start); W8(f.length); W4(f.procId); WS(f.clientId);
    FieldByField(FlockItem(f).fields,
                 [[f.typ], B4(f.flags), B8(f.start), B8(f.length), B4(f.procId), S(f.clientId)]);
  }

  lemma WGetlock(f: Getlock)
    ensures Bytes(GetlockItem(f)) == GetlockBytes(f)
  {
    W1(f.typ); W8(f.start); W8(f.length); W4(f.procId); WS(f.clientId);
    FieldByField(GetlockItem(f).fields, [[f.typ], B8(f.start), B8(f.length), B4(f.procId), S(f.clientId)]);
  }

  lemma WQids(qs: seq<Qid>)
    ensures Bytes(Vector(QidItems(qs))) == QidsBytes(qs)
  {
    Bytes2(|qs| % 0x1_0000);
    forall i | 0 <= i < |qs| ensures Bytes(QidItems(qs)[i]) == QidBytes(qs[i]) {
      WQid(qs[i]);
    }
    FieldByField(QidItems(qs), seq(|qs|, i requires 0 <= i < |qs| => QidBytes(qs[i])));
  }

  lemma WNames(ss: seq<Str>)
    ensures Bytes(Vector(TextItems(ss))) == NamesBytes(ss)
  {
    Bytes2(|ss| % 0x1_0000);
    forall i | 0 <= i < |ss| ensures Bytes(TextItems(ss)[i]) == S(ss[i]) {
      WS(ss[i]);
    }
    FieldByField(TextItems(ss), seq(|ss|, i requires 0 <= i < |ss| => S(ss[i])));
  }

  lemma WListing(es: seq<DirEntry>)
    ensures Bytes(Entries(DirEntryItems(es))) == ListingBytes(es)
  {
    forall i | 0 <= i < |es| ensures Bytes(DirEntryItems(es)[i]) == DirEntryBytes(es[i]) {
      WDirEntry(es[i]);
    }
    var fields := seq(|es|, i requires 0 <= i < |es| => DirEntryBytes(es[i]));
    FieldByField(DirEntryItems(es), fields);
    MessageLaws.ListingSize(es);
    Bytes4(|Cat(fields)| % 0x1_0000_0000);
  }

  // ----- the arms -----

  /** The operands are written as these fields. */
  ghost predicate Writes(operands: seq<Item>, fields: seq<seq<u8>>) {
    |operands| == |fields| && forall i | 0 <= i < |operands| :: Bytes(operands[i]) == fields[i]
  }


  lemma LerrorArms(f: Fcall)
    requires f.Rlerror?
    ensures Writes(OpenOperands(f), OpenLayout(f).1) && TypeCode(f) == OpenLayout(f).0
  {
    W4(f.ecode);
  }

  lemma StatfsArms(f: Fcall)
    requires f.Tstatfs? || f.Rstatfs?
    ensures Writes(OpenOperands(f), OpenLayout(f).1) && TypeCode(f) == OpenLayout(f).0
  {
    match f
    case Tstatfs(fid) => W4(fid);
    case Rstatfs(statfs) => WStatfs(statfs);
  }

  lemma LopenArms(f: Fcall)
    requires f.Tlopen? || f.Rlopen?
    ensures Writes(OpenOperands(f), OpenLayout(f).1) && TypeCode(f) == OpenLayout(f).0
  {
    match f
    case Tlopen(fid, flags) => W4(fid); W4(flags);
    case Rlopen(qid, iounit) => WQid(qid); W4(iounit);
  }

  lemma LcreateArms(f: Fcall)
    requires f.Tlcreate? || f.Rlcreate?
    ensures Writes(OpenOperands(f), OpenLayout(f).1) && TypeCode(f) == OpenLayout(f).0
  {
    match f
    case Tlcreate(fid, name, flags, mode, gid) => W4(fid); WS(name); W4(flags); W4(mode); W4(gid);
    case Rlcreate(qid, iounit) => WQid(qid); W4(iounit);
  }

  lemma OpenFamilyArms(f: Fcall)
    requires OpenFamily(f)
    ensures Writes(OpenOperands(f), OpenLayout(f).1) && TypeCode(f) == OpenLayout(f).0
  {
    if f.Rlerror? {
      LerrorArms(f);
    } else if f.Tstatfs? || f.Rstatfs? {
      StatfsArms(f);
    } else if f.Tlopen? || f.Rlopen? {
      LopenArms(f);
    } else {
      LcreateArms(f);
    }
  }

  lemma SymlinkArms(f: Fcall)
    requires f.Tsymlink? || f.Rsymlink?
    ensures Writes(NodeOperands(f), NodeLayout(f).1) && TypeCode(f) == NodeLayout(f).0
  {
    match f
    case Tsymlink(fid, name, symtgt, gid) => W4(fid); WS(name); WS(symtgt); W4(gid);
    case Rsymlink(qid) => WQid(qid);
  }

  lemma MknodArms(f: Fcall)
    requires f.Tmknod? || f.Rmknod?
    ensures Writes(NodeOperands(f), NodeLayout(f).1) && TypeCode(f) == NodeLayout(f).0
  {
    match f
    case Tmknod(dfid, name, mode, major, minor, gid) =>
      W4(dfid); WS(name); W4(mode); W4(major); W4(minor); W4(gid);
    case Rmknod(qid) => WQid(qid);
  }

  lemma NodeFamilyArms(f: Fcall)
    requires NodeFamily(f)
    ensures Writes(NodeOperands(f), NodeLayout(f).1) && TypeCode(f) == NodeLayout(f).0
  {
    if f.Tsymlink? || f.Rsymlink? {
      SymlinkArms(f);
    } else {
      MknodArms(f);
    }
  }

  lemma RenameArms(f: Fcall)
    requires f.Trename? || f.Rrename?
    ensures Writes(ReadlinkOperands(f), ReadlinkLayout(f).1) && TypeCode(f) == ReadlinkLayout(f).0
  {
    match f
    case Trename(fid, dfid, name) => W4(fid); W4(dfid); WS(name);
    case Rrename =>
  }

  lemma ReadlinkArms(f: Fcall)
    requires f.Treadlink? || f.Rreadlink?
    ensures Writes(ReadlinkOperands(f), ReadlinkLayout(f).1) && TypeCode(f) == ReadlinkLayout(f).0
  {
    match f
    case Treadlink(fid) => W4(fid);
    case Rreadlink(target) => WS(target);
  }

  lemma ReadlinkFamilyArms(f: Fcall)
    requires ReadlinkFamily(f)
    ensures Writes(ReadlinkOperands(f), ReadlinkLayout(f).1) && TypeCode(f) == ReadlinkLayout(f).0
  {
    if f.Trename? || f.Rrename? {
      RenameArms(f);
    } else {
      ReadlinkArms(f);
    }
  }

  lemma TgetattrArms(f: Fcall)
    requires f.Tgetattr?
    ensures Writes(GetattrOperands(f), GetattrLayout(f).1) && TypeCode(f) == GetattrLayout(f).0
  {
    W4(f.fid); W8(f.reqMask);
  }

  lemma RgetattrArms(f: Fcall)
    requires f.Rgetattr?
    ensures Writes(GetattrOperands(f), GetattrLayout(f).1) && TypeCode(f) == GetattrLayout(f).0
  {
    W8(f.gvalid); WQid(f.qid); WStat(f.stat); W0();
  }

  lemma GetattrFamilyArms(f: Fcall)
    requires GetattrFamily(f)
    ensures Writes(GetattrOperands(f), GetattrLayout(f).1) && TypeCode(f) == GetattrLayout(f).0
  {
    if f.Tgetattr? {
      TgetattrArms(f);
    } else {
      RgetattrArms(f);
    }
  }

  lemma SetattrArms(f: Fcall)
    requires f.Tsetattr? || f.Rsetattr?
    ensures Writes(SetattrOperands(f), SetattrLayout(f).1) && TypeCode(f) == SetattrLayout(f).0
  {
    match f
    case Tsetattr(fid, valid, stat) => W4(fid); W4(valid); WSetAttr(stat);
    case Rsetattr =>
  }

  lemma SetattrFamilyArms(f: Fcall)
    requires SetattrFamily(f)
    ensures Writes(SetattrOperands(f), SetattrLayout(f).1) && TypeCode(f) == SetattrLayout(f).0
  {
    SetattrArms(f);
  }

  lemma XattrwalkArms(f: Fcall)
    requires f.Txattrwalk? || f.Rxattrwalk?
    ensures Writes(XattrOperands(f), XattrLayout(f).1) && TypeCode(f) == XattrLayout(f).0
  {
    match f
    case Txattrwalk(fid, newfid, name) => W4(fid); W4(newfid); WS(name);
    case Rxattrwalk(size) => W8(size);
  }

  lemma XattrcreateArms(f: Fcall)
    requires f.Txattrcreate? || f.Rxattrcreate?
    ensures Writes(XattrOperands(f), XattrLayout(f).1) && TypeCode(f) == XattrLayout(f).0
  {
    match f
    case Txattrcreate(fid, name, attrSize, flags) => W4(fid); WS(name); W8(attrSize); W4(flags);
    case Rxattrcreate =>
  }

  lemma XattrFamilyArms(f: Fcall)
    requires XattrFamily(f)
    ensures Writes(XattrOperands(f), XattrLayout(f).1) && TypeCode(f) == XattrLayout(f).0
  {
    if f.Txattrwalk? || f.Rxattrwalk? {
      XattrwalkArms(f);
    } else {
      XattrcreateArms(f);
    }
  }

  lemma ReaddirArms(f: Fcall)
    requires f.Treaddir? || f.Rreaddir?
    ensures Writes(DirOperands(f), DirLayout(f).1) && TypeCode(f) == DirLayout(f).0
  {
    match f
    case Treaddir(fid, offset, count) => W4(fid); W8(offset); W4(count);
    case Rreaddir(data) => WListing(data);
  }

  lemma FsyncArms(f: Fcall)
    requires f.Tfsync? || f.Rfsync?
    ensures Writes(DirOperands(f), DirLayout(f).1) && TypeCode(f) == DirLayout(f).0
  {
    match f
    case Tfsync(fid) => W4(fid);
    case Rfsync =>
  }

  lemma DirFamilyArms(f: Fcall)
    requires DirFamily(f)
    ensures Writes(DirOperands(f), DirLayout(f).1) && TypeCode(f) == DirLayout(f).0
  {
    if f.Treaddir? || f.Rreaddir? {
      ReaddirArms(f);
    } else {
      FsyncArms(f);
    }
  }

  lemma LockArms(f: Fcall)
    requires f.Tlock? || f.Rlock?
    ensures Writes(LockOperands(f), LockLayout(f).1) && TypeCode(f) == LockLayout(f).0
  {
    match f
    case Tlock(fid, flock) => W4(fid); WFlock(flock);
    case Rlock(status) => W1(status);
  }

  lemma LockFamilyArms(f: Fcall)
    requires LockFamily(f)
    ensures Writes(LockOperands(f), LockLayout(f).1) && TypeCode(f) == LockLayout(f).0
  {
    LockArms(f);
  }

  lemma GetlockArms(f: Fcall)
    requires f.Tgetlock? || f.Rgetlock?
    ensures Writes(LockQueryOperands(f), LockQueryLayout(f).1) && TypeCode(f) == LockQueryLayout(f).0
  {
    match f
    case Tgetlock(fid, flock) => W4(fid); WGetlock(flock);
    case Rgetlock(flock) => WGetlock(flock);
  }

  lemma LockQueryFamilyArms(f: Fcall)
    requires LockQueryFamily(f)
    ensures Writes(LockQueryOperands(f), LockQueryLayout(f).1) && TypeCode(f) == LockQueryLayout(f).0
  {
    GetlockArms(f);
  }

  lemma LinkArms(f: Fcall)
    requires f.Tlink? || f.Rlink?
    ensures Writes(LinkOperands(f), LinkLayout(f).1) && TypeCode(f) == LinkLayout(f).0
  {
    match f
    case Tlink(dfid, fid, name) => W4(dfid); W4(fid); WS(name);
    case Rlink =>
  }

  lemma MkdirArms(f: Fcall)
    requires f.Tmkdir? || f.Rmkdir?
    ensures Writes(LinkOperands(f), LinkLayout(f).1) && TypeCode(f) == LinkLayout(f).0
  {
    match f
    case Tmkdir(dfid, name, mode, gid) => W4(dfid); WS(name); W4(mode); W4(gid);
    case Rmkdir(qid) => WQid(qid);
  }

  lemma LinkFamilyArms(f: Fcall)
    requires LinkFamily(f)
    ensures Writes(LinkOperands(f), LinkLayout(f).1) && TypeCode(f) == LinkLayout(f).0
  {
    if f.Tlink? || f.Rlink? {
      LinkArms(f);
    } else {
      MkdirArms(f);
    }
  }

  lemma RenameatArms(f: Fcall)
    requires f.Trenameat? || f.Rrenameat?
    ensures Writes(RenameOperands(f), RenameLayout(f).1) && TypeCode(f) == RenameLayout(f).0
  {
    match f
    case Trenameat(olddirfid, oldname, newdirfid, newname) =>
      W4(olddirfid); WS(oldname); W4(newdirfid); WS(newname);
    case Rrenameat =>
  }

  lemma UnlinkatArms(f: Fcall)
    requires f.Tunlinkat? || f.Runlinkat?
    ensures Writes(RenameOperands(f), RenameLayout(f).1) && TypeCode(f) == RenameLayout(f).0
  {
    match f
    case Tunlinkat(dirfd, name, flags) => W4(dirfd); WS(name); W4(flags);
    case Runlinkat =>
  }

  lemma RenameFamilyArms(f: Fcall)
    requires RenameFamily(f)
    ensures Writes(RenameOperands(f), RenameLayout(f).1) && TypeCode(f) == RenameLayout(f).0
  {
    if f.Trenameat? || f.Rrenameat? {
      RenameatArms(f);
    } else {
      UnlinkatArms(f);
    }
  }

  lemma VersionArms(f: Fcall)
    requires f.Tversion? || f.Rversion?
    ensures Writes(SessionOperands(f), SessionLayout(f).1) && TypeCode(f) == SessionLayout(f).0
  {
    match f
    case Tversion(msize, version) => W4(msize); WS(version);
    case Rversion(msize, version) => W4(msize); WS(version);
  }

  lemma AuthArms(f: Fcall)
    requires f.Tauth? || f.Rauth?
    ensures Writes(SessionOperands(f), SessionLayout(f).1) && TypeCode(f) == SessionLayout(f).0
  {
    match f
    case Tauth(afid, uname, aname, nUname) => W4(afid); WS(uname); WS(aname); W4(nUname);
    case Rauth(aqid) => WQid(aqid);
  }

  lemma SessionFamilyArms(f: Fcall)
    requires SessionFamily(f)
    ensures Writes(SessionOperands(f), SessionLayout(f).1) && TypeCode(f) == SessionLayout(f).0
  {
    if f.Tversion? || f.Rversion? {
      VersionArms(f);
    } else {
      AuthArms(f);
    }
  }

  lemma AttachArms(f: Fcall)
    requires f.Tattach? || f.Rattach?
    ensures Writes(AttachOperands(f), AttachLayout(f).1) && TypeCode(f) == AttachLayout(f).0
  {
    match f
    case Tattach(fid, afid, uname, aname, nUname) => W4(fid); W4(afid); WS(uname); WS(aname); W4(nUname);
    case Rattach(qid) => WQid(qid);
  }

  lemma AttachFamilyArms(f: Fcall)
    requires AttachFamily(f)
    ensures Writes(AttachOperands(f), AttachLayout(f).1) && TypeCode(f) == AttachLayout(f).0
  {
    AttachArms(f);
  }

  lemma FlushArms(f: Fcall)
    requires f.Tflush? || f.Rflush?
    ensures Writes(WalkOperands(f), WalkLayout(f).1) && TypeCode(f) == WalkLayout(f).0
  {
    match f
    case Tflush(oldtag) => W2(oldtag);
    case Rflush =>
  }

  lemma WalkArms(f: Fcall)
    requires f.Twalk? || f.Rwalk?
    ensures Writes(WalkOperands(f), WalkLayout(f).1) && TypeCode(f) == WalkLayout(f).0
  {
    match f
    case Twalk(fid, newfid, wnames) => W4(fid); W4(newfid); WNames(wnames);
    case Rwalk(wqids) => WQids(wqids);
  }

  lemma ReadArms(f: Fcall)
    requires f.Tread? || f.Rread?
    ensures Writes(WalkOperands(f), WalkLayout(f).1) && TypeCode(f) == WalkLayout(f).0
  {
    match f
    case Tread(fid, offset, count) => W4(fid); W8(offset); W4(count);
    case Rread(data) => WD(data);
  }

  lemma WalkFamilyArms(f: Fcall)
    requires WalkFamily(f)
    ensures Writes(WalkOperands(f), WalkLayout(f).1) && TypeCode(f) == WalkLayout(f).0
  {
    if f.Tflush? || f.Rflush? {
      FlushArms(f);
    } else if f.Twalk? || f.Rwalk? {
      WalkArms(f);
    } else {
      ReadArms(f);
    }
  }

  lemma WriteArms(f: Fcall)
    requires f.Twrite? || f.Rwrite?
    ensures Writes(DataOperands(f), DataLayout(f).1) && TypeCode(f) == DataLayout(f).0
  {
    match f
    case Twrite(fid, offset, data) => W4(fid); W8(offset); WD(data);
    case Rwrite(count) => W4(count);
  }

  lemma ClunkArms(f: Fcall)
    requires f.Tclunk? || f.Rclunk?
    ensures Writes(DataOperands(f), DataLayout(f).1) && TypeCode(f) == DataLayout(f).0
  {
    match f
    case Tclunk(fid) => W4(fid);
    case Rclunk =>
  }

  lemma RemoveArms(f: Fcall)
    requires f.Tremove? || f.Rremove?
    ensures Writes(DataOperands(f), DataLayout(f).1) && TypeCode(f) == DataLayout(f).0
  {
    match f
    case Tremove(fid) => W4(fid);
    case Rremove =>
  }

  lemma DataFamilyArms(f: Fcall)
    requires DataFamily(f)
    ensures Writes(DataOperands(f), DataLayout(f).1) && TypeCode(f) == DataLayout(f).0
  {
    if f.Twrite? || f.Rwrite? {
      WriteArms(f);
    } else if f.Tclunk? || f.Rclunk? {
      ClunkArms(f);
    } else {
      RemoveArms(f);
    }
  }

  lemma FamilyOf(f: Fcall)
    ensures var code := TypeCode(f);
            && (0 <= code < 16 ==> OpenFamily(f))
            && (16 <= code < 20 ==> NodeFamily(f))
            && (20 <= code < 24 ==> ReadlinkFamily(f))
            && (24 <= code < 26 ==> GetattrFamily(f))
            && (26 <= code < 30 ==> SetattrFamily(f))
            && (30 <= code < 40 ==> XattrFamily(f))
            && (40 <= code < 52 ==> DirFamily(f))
            && (52 <= code < 54 ==> LockFamily(f))
            && (54 <= code < 70 ==> LockQueryFamily(f))
            && (70 <= code < 74 ==> LinkFamily(f))
            && (74 <= code < 100 ==> RenameFamily(f))
            && (100 <= code < 104 ==> SessionFamily(f))
            && (104 <= code < 106 ==> AttachFamily(f))
            && (106 <= code < 118 ==> WalkFamily(f))
            && (118 <= code < 256 ==> DataFamily(f))
  {
  }

  lemma Below26Arms(f: Fcall)
    requires 0 <= TypeCode(f) < 26
    ensures Writes(Operands(f), Layout(f).1) && TypeCode(f) == Layout(f).0
  {
    FamilyOf(f);
    var code := TypeCode(f);
    if code < 16 {
      OpenFamilyArms(f);
    } else if code < 20 {
      NodeFamilyArms(f);
    } else if code < 24 {
      ReadlinkFamilyArms(f);
    } else {
      GetattrFamilyArms(f);
    }
  }

  lemma Below54Arms(f: Fcall)
    requires 26 <= TypeCode(f) < 54
    ensures Writes(Operands(f), Layout(f).1) && TypeCode(f) == Layout(f).0
  {
    FamilyOf(f);
    var code := TypeCode(f);
    if code < 30 {
      SetattrFamilyArms(f);
    } else if code < 40 {
      XattrFamilyArms(f);
    } else if code < 52 {
      DirFamilyArms(f);
    } else {
      LockFamilyArms(f);
    }
  }

  lemma Below104Arms(f: Fcall)
    requires 54 <= TypeCode(f) < 104
    ensures Writes(Operands(f), Layout(f).1) && TypeCode(f) == Layout(f).0
  {
    FamilyOf(f);
    var code := TypeCode(f);
    if code < 70 {
      LockQueryFamilyArms(f);
    } else if code < 74 {
      LinkFamilyArms(f);
    } else if code < 100 {
      RenameFamilyArms(f);
    } else {
      SessionFamilyArms(f);
    }
  }

  lemma Above104Arms(f: Fcall)
    requires 104 <= TypeCode(f) < 256
    ensures Writes(Operands(f), Layout(f).1) && TypeCode(f) == Layout(f).0
  {
    FamilyOf(f);
    var code := TypeCode(f);
    if code < 106 {
      AttachFamilyArms(f);
    } else if code < 118 {
      WalkFamilyArms(f);
    } else {
      DataFamilyArms(f);
    }
  }

  lemma ArmsAreLaidOut(f: Fcall)
    ensures Writes(Operands(f), Layout(f).1) && TypeCode(f) == Layout(f).0
  {
    if TypeCode(f) < 26 {
      Below26Arms(f);
    } else if TypeCode(f) < 54 {
      Below54Arms(f);
    } else if TypeCode(f) < 104 {
      Below104Arms(f);
    } else {
      Above104Arms(f);
    }
  }

  /** What is written for a message is its frame: the code, the tag and the fields, in this order. */
  lemma WritesFrame(m: Msg)
    ensures Write(m) == Frame(m)
  {
    ArmsAreLaidOut(m.body);
    W1(TypeCode(m.body));
    W2(m.tag);
    FieldByField(MsgItems(m), [[TypeCode(m.body)], B2(m.tag)] + Layout(m.body).1);
    CatHeader([TypeCode(m.body)], B2(m.tag), Layout(m.body).1);
  }

  lemma CatHeader(a: seq<u8>, b: seq<u8>, fields: seq<seq<u8>>)
    ensures Cat([a, b] + fields) == a + b + Cat(fields)
  {
    assert ([a, b] + fields)[1..] == [b] + fields && ([b] + fields)[1..] == fields;
    assert a + (b + Cat(fields)) == a + b + Cat(fields);
  }

  /** ... and from these bytes the message is read, whatever follows, exactly on the domain of the round
      trip. */
  lemma ReadsFrame(m: Msg, rest: seq<u8>)
    ensures Read(Frame(m) + rest) == Ok((m, rest)) <==> WireLaws.FaithfulAll(MsgItems(m))
  {
    WritesFrame(m);
    RoundTrip(m, rest);
  }
}
