// serialize.rs: the operands each message variant passes to the encoder, and the fields each
// decoder arm reads, for every variant of Fcall.
module Codec {
  import opened Wrappers
  import opened Protocol
  import opened Wire

  // ----- records -----

  lemma Fields(x: Item, k: Kind)
    requires Fits(x, k) && k.KRecord?
    ensures x.Record? && FitsAll(x.fields, k.fields)
  {
  }

  const K_QID: Kind := KRecord([KFlags(1, QID_TYPE_BITS), KU32, KU64])

  function QidItem(q: Qid): Item {
    Record([Flags(1, q.typ), U32(q.version), U64(q.path)])
  }

  function ItemQid(x: Item): Qid
    requires Fits(x, K_QID)
  {
    Fields(x, K_QID);
    Qid(x.fields[0].bits, x.fields[1].n32, x.fields[2].n64)
  }

  const K_STATFS: Kind := KRecord([KU32, KU32, KU64, KU64, KU64, KU64, KU64, KU64, KU32])

  function StatfsItem(s: Statfs): Item {
    Record([U32(s.typ), U32(s.bsize), U64(s.blocks), U64(s.bfree), U64(s.bavail),
            U64(s.files), U64(s.ffree), U64(s.fsid), U32(s.namelen)])
  }

  function ItemStatfs(x: Item): Statfs
    requires Fits(x, K_STATFS)
  {
    Fields(x, K_STATFS);
    Statfs(x.fields[0].n32, x.fields[1].n32, x.fields[2].n64, x.fields[3].n64, x.fields[4].n64,
           x.fields[5].n64, x.fields[6].n64, x.fields[7].n64, x.fields[8].n32)
  }

  const K_TIME: Kind := KRecord([KU64, KU64])

  function TimeItem(t: Time): Item {
    Record([U64(t.sec), U64(t.nsec)])
  }

  function ItemTime(x: Item): Time
    requires Fits(x, K_TIME)
  {
    Fields(x, K_TIME);
    Time(x.fields[0].n64, x.fields[1].n64)
  }

  const K_STAT: Kind := KRecord([KU32, KU32, KU32, KU64, KU64, KU64, KU64, KU64, K_TIME, K_TIME, K_TIME])

  function StatItem(s: Stat): Item {
    Record([U32(s.mode), U32(s.uid), U32(s.gid), U64(s.nlink), U64(s.rdev), U64(s.size),
            U64(s.blksize), U64(s.blocks), TimeItem(s.atime), TimeItem(s.mtime), TimeItem(s.ctime)])
  }

  function ItemStat(x: Item): Stat
    requires Fits(x, K_STAT)
  {
    Fields(x, K_STAT);
    Stat(x.fields[0].n32, x.fields[1].n32, x.fields[2].n32, x.fields[3].n64, x.fields[4].n64,
         x.fields[5].n64, x.fields[6].n64, x.fields[7].n64,
         ItemTime(x.fields[8]), ItemTime(x.fields[9]), ItemTime(x.fields[10]))
  }

  const K_SETATTR: Kind := KRecord([KU32, KU32, KU32, KU64, K_TIME, K_TIME])

  function SetAttrItem(s: SetAttr): Item {
    Record([U32(s.mode), U32(s.uid), U32(s.gid), U64(s.size), TimeItem(s.atime), TimeItem(s.mtime)])
  }

  function ItemSetAttr(x: Item): SetAttr
    requires Fits(x, K_SETATTR)
  {
    Fields(x, K_SETATTR);
    SetAttr(x.fields[0].n32, x.fields[1].n32, x.fields[2].n32, x.fields[3].n64,
            ItemTime(x.fields[4]), ItemTime(x.fields[5]))
  }

  const K_DIRENT: Kind := KRecord([K_QID, KU64, KU8, KText])

  function DirEntryItem(e: DirEntry): Item {
    Record([QidItem(e.qid), U64(e.offset), U8(e.typ), Text(e.name)])
  }

  function ItemDirEntry(x: Item): DirEntry
    requires Fits(x, K_DIRENT)
  {
    Fields(x, K_DIRENT);
    DirEntry(ItemQid(x.fields[0]), x.fields[1].n64, x.fields[2].n8, x.fields[3].text)
  }

  const K_FLOCK: Kind := KRecord([KFlags(1, LOCK_TYPE_BITS), KFlags(4, LOCK_FLAG_BITS), KU64, KU64, KU32, KText])

  function FlockItem(f: Flock): Item {
    Record([Flags(1, f.typ), Flags(4, f.flags), U64(f.start), U64(f.length), U32(f.procId), Text(f.clientId)])
  }

  function ItemFlock(x: Item): Flock
    requires Fits(x, K_FLOCK)
  {
    Fields(x, K_FLOCK);
    Flock(x.fields[0].bits, x.fields[1].bits, x.fields[2].n64, x.fields[3].n64, x.fields[4].n32, x.fields[5].text)
  }

  const K_GETLOCK: Kind := KRecord([KFlags(1, LOCK_TYPE_BITS), KU64, KU64, KU32, KText])

  function GetlockItem(f: Getlock): Item {
    Record([Flags(1, f.typ), U64(f.start), U64(f.length), U32(f.procId), Text(f.clientId)])
  }

  function ItemGetlock(x: Item): Getlock
    requires Fits(x, K_GETLOCK)
  {
    Fields(x, K_GETLOCK);
    Getlock(x.fields[0].bits, x.fields[1].n64, x.fields[2].n64, x.fields[3].n32, x.fields[4].text)
  }

  function QidItems(qs: seq<Qid>): seq<Item> {
    seq(|qs|, i requires 0 <= i < |qs| => QidItem(qs[i]))
  }

  function ItemQids(xs: seq<Item>): seq<Qid>
    requires forall i | 0 <= i < |xs| :: Fits(xs[i], K_QID)
  {
    seq(|xs|, i requires 0 <= i < |xs| && Fits(xs[i], K_QID) => ItemQid(xs[i]))
  }

  function TextItems(ss: seq<Str>): seq<Item> {
    seq(|ss|, i requires 0 <= i < |ss| => Text(ss[i]))
  }

  function ItemTexts(xs: seq<Item>): seq<Str>
    requires forall i | 0 <= i < |xs| :: Fits(xs[i], KText)
  {
    seq(|xs|, i requires 0 <= i < |xs| && Fits(xs[i], KText) => xs[i].text)
  }

  function DirEntryItems(es: seq<DirEntry>): seq<Item> {
    seq(|es|, i requires 0 <= i < |es| => DirEntryItem(es[i]))
  }

  function ItemDirEntries(xs: seq<Item>): seq<DirEntry>
    requires forall i | 0 <= i < |xs| :: Fits(xs[i], K_DIRENT)
  {
    seq(|xs|, i requires 0 <= i < |xs| && Fits(xs[i], K_DIRENT) => ItemDirEntry(xs[i]))
  }

  // ----- messages -----

  // The arms of `Msg::encode` and `Msg::decode`, family by family in the order of the type codes.
  // `...Operands` are the right operands of `<<` in order, `...Shape` the types of the fields the
  // decoder reads, `...Assemble` the message it builds from them.

  // errors, statfs, open and create

  predicate OpenFamily(f: Fcall) {
    f.Rlerror? || f.Tstatfs? || f.Rstatfs? || f.Tlopen? || f.Rlopen? || f.Tlcreate? || f.Rlcreate?
  }

  function OpenOperands(f: Fcall): seq<Item>
    requires OpenFamily(f)
  {
    match f
    case Rlerror(ecode) => [U32(ecode)]
    case Tstatfs(fid) => [U32(fid)]
    case Rstatfs(statfs) => [StatfsItem(statfs)]
    case Tlopen(fid, flags) => [U32(fid), U32(flags)]
    case Rlopen(qid, iounit) => [QidItem(qid), U32(iounit)]
    case Tlcreate(fid, name, flags, mode, gid) => [U32(fid), Text(name), U32(flags), U32(mode), U32(gid)]
    case Rlcreate(qid, iounit) => [QidItem(qid), U32(iounit)]
  }

  function OpenShape(code: u8): Option<seq<Kind>> {
    match code
    case 7 => Some([KU32])
    case 8 => Some([KU32])
    case 9 => Some([K_STATFS])
    case 12 => Some([KU32, KU32])
    case 13 => Some([K_QID, KU32])
    case 14 => Some([KU32, KText, KU32, KU32, KU32])
    case 15 => Some([K_QID, KU32])
    case _ => None
  }

  function OpenAssemble(code: u8, xs: seq<Item>): Fcall
    requires OpenShape(code).Some? && FitsAll(xs, OpenShape(code).value)
  {
    match code
    case 7 => Rlerror(xs[0].n32)
    case 8 => Tstatfs(xs[0].n32)
    case 9 => Rstatfs(ItemStatfs(xs[0]))
    case 12 => Tlopen(xs[0].n32, xs[1].n32)
    case 13 => Rlopen(ItemQid(xs[0]), xs[1].n32)
    case 14 => Tlcreate(xs[0].n32, xs[1].text, xs[2].n32, xs[3].n32, xs[4].n32)
    case 15 => Rlcreate(ItemQid(xs[0]), xs[1].n32)
  }

  // symlinks and device nodes

  predicate NodeFamily(f: Fcall) {
    f.Tsymlink? || f.Rsymlink? || f.Tmknod? || f.Rmknod?
  }

  function NodeOperands(f: Fcall): seq<Item>
    requires NodeFamily(f)
  {
    match f
    case Tsymlink(fid, name, symtgt, gid) => [U32(fid), Text(name), Text(symtgt), U32(gid)]
    case Rsymlink(qid) => [QidItem(qid)]
    case Tmknod(dfid, name, mode, major, minor, gid) =>
      [U32(dfid), Text(name), U32(mode), U32(major), U32(minor), U32(gid)]
    case Rmknod(qid) => [QidItem(qid)]
  }

  function NodeShape(code: u8): Option<seq<Kind>> {
    match code
    case 16 => Some([KU32, KText, KText, KU32])
    case 17 => Some([K_QID])
    case 18 => Some([KU32, KText, KU32, KU32, KU32, KU32])
    case 19 => Some([K_QID])
    case _ => None
  }

  function NodeAssemble(code: u8, xs: seq<Item>): Fcall
    requires NodeShape(code).Some? && FitsAll(xs, NodeShape(code).value)
  {
    match code
    case 16 => Tsymlink(xs[0].n32, xs[1].text, xs[2].text, xs[3].n32)
    case 17 => Rsymlink(ItemQid(xs[0]))
    case 18 => Tmknod(xs[0].n32, xs[1].text, xs[2].n32, xs[3].n32, xs[4].n32, xs[5].n32)
    case 19 => Rmknod(ItemQid(xs[0]))
  }

  // renames and link targets

  predicate ReadlinkFamily(f: Fcall) {
    f.Trename? || f.Rrename? || f.Treadlink? || f.Rreadlink?
  }

  function ReadlinkOperands(f: Fcall): seq<Item>
    requires ReadlinkFamily(f)
  {
    match f
    case Trename(fid, dfid, name) => [U32(fid), U32(dfid), Text(name)]
    case Rrename => []
    case Treadlink(fid) => [U32(fid)]
    case Rreadlink(target) => [Text(target)]
  }

  function ReadlinkShape(code: u8): Option<seq<Kind>> {
    match code
    case 20 => Some([KU32, KU32, KText])
    case 21 => Some([])
    case 22 => Some([KU32])
    case 23 => Some([KText])
    case _ => None
  }

  function ReadlinkAssemble(code: u8, xs: seq<Item>): Fcall
    requires ReadlinkShape(code).Some? && FitsAll(xs, ReadlinkShape(code).value)
  {
    match code
    case 20 => Trename(xs[0].n32, xs[1].n32, xs[2].text)
    case 21 => Rrename
    case 22 => Treadlink(xs[0].n32)
    case 23 => Rreadlink(xs[0].text)
  }

  // reading attributes

  predicate GetattrFamily(f: Fcall) {
    f.Tgetattr? || f.Rgetattr?
  }

  function GetattrOperands(f: Fcall): seq<Item>
    requires GetattrFamily(f)
  {
    match f
    case Tgetattr(fid, reqMask) => [U32(fid), Flags(8, reqMask)]
    case Rgetattr(valid, qid, stat) => [Flags(8, valid), QidItem(qid), StatItem(stat), Zero, Zero, Zero, Zero]
  }

  /** Four reserved words follow the attributes. */
  const K_RGETATTR: seq<Kind> := [KFlags(8, GETATTR_BITS), K_QID, K_STAT, KZero, KZero, KZero, KZero]

  function GetattrShape(code: u8): Option<seq<Kind>> {
    match code
    case 24 => Some([KU32, KFlags(8, GETATTR_BITS)])
    case 25 => Some(K_RGETATTR)
    case _ => None
  }

  function GetattrAssemble(code: u8, xs: seq<Item>): Fcall
    requires GetattrShape(code).Some? && FitsAll(xs, GetattrShape(code).value)
  {
    match code
    case 24 => Tgetattr(xs[0].n32, xs[1].bits)
    case 25 => Rgetattr(xs[0].bits, ItemQid(xs[1]), ItemStat(xs[2]))
  }

  // setting attributes

  predicate SetattrFamily(f: Fcall) {
    f.Tsetattr? || f.Rsetattr?
  }

  function SetattrOperands(f: Fcall): seq<Item>
    requires SetattrFamily(f)
  {
    match f
    case Tsetattr(fid, valid, stat) => [U32(fid), Flags(4, valid), SetAttrItem(stat)]
    case Rsetattr => []
  }

  function SetattrShape(code: u8): Option<seq<Kind>> {
    match code
    case 26 => Some([KU32, KFlags(4, SETATTR_BITS), K_SETATTR])
    case 27 => Some([])
    case _ => None
  }

  function SetattrAssemble(code: u8, xs: seq<Item>): Fcall
    requires SetattrShape(code).Some? && FitsAll(xs, SetattrShape(code).value)
  {
    match code
    case 26 => Tsetattr(xs[0].n32, xs[1].bits, ItemSetAttr(xs[2]))
    case 27 => Rsetattr
  }

  // extended attributes

  predicate XattrFamily(f: Fcall) {
    f.Txattrwalk? || f.Rxattrwalk? || f.Txattrcreate? || f.Rxattrcreate?
  }

  function XattrOperands(f: Fcall): seq<Item>
    requires XattrFamily(f)
  {
    match f
    case Txattrwalk(fid, newfid, name) => [U32(fid), U32(newfid), Text(name)]
    case Rxattrwalk(size) => [U64(size)]
    case Txattrcreate(fid, name, attrSize, flags) => [U32(fid), Text(name), U64(attrSize), U32(flags)]
    case Rxattrcreate => []
  }

  function XattrShape(code: u8): Option<seq<Kind>> {
    match code
    case 30 => Some([KU32, KU32, KText])
    case 31 => Some([KU64])
    case 32 => Some([KU32, KText, KU64, KU32])
    case 33 => Some([])
    case _ => None
  }

  function XattrAssemble(code: u8, xs: seq<Item>): Fcall
    requires XattrShape(code).Some? && FitsAll(xs, XattrShape(code).value)
  {
    match code
    case 30 => Txattrwalk(xs[0].n32, xs[1].n32, xs[2].text)
    case 31 => Rxattrwalk(xs[0].n64)
    case 32 => Txattrcreate(xs[0].n32, xs[1].text, xs[2].n64, xs[3].n32)
    case 33 => Rxattrcreate
  }

  // directory listings and fsync

  predicate DirFamily(f: Fcall) {
    f.Treaddir? || f.Rreaddir? || f.Tfsync? || f.Rfsync?
  }

  function DirOperands(f: Fcall): seq<Item>
    requires DirFamily(f)
  {
    match f
    case Treaddir(fid, offset, count) => [U32(fid), U64(offset), U32(count)]
    case Rreaddir(data) => [Entries(DirEntryItems(data))]
    case Tfsync(fid) => [U32(fid)]
    case Rfsync => []
  }

  function DirShape(code: u8): Option<seq<Kind>> {
    match code
    case 40 => Some([KU32, KU64, KU32])
    case 41 => Some([KEntries(K_DIRENT)])
    case 50 => Some([KU32])
    case 51 => Some([])
    case _ => None
  }

  function DirAssemble(code: u8, xs: seq<Item>): Fcall
    requires DirShape(code).Some? && FitsAll(xs, DirShape(code).value)
  {
    match code
    case 40 => Treaddir(xs[0].n32, xs[1].n64, xs[2].n32)
    case 41 => Rreaddir(ItemDirEntries(xs[0].entries))
    case 50 => Tfsync(xs[0].n32)
    case 51 => Rfsync
  }

  // taking locks

  predicate LockFamily(f: Fcall) {
    f.Tlock? || f.Rlock?
  }

  function LockOperands(f: Fcall): seq<Item>
    requires LockFamily(f)
  {
    match f
    case Tlock(fid, flock) => [U32(fid), FlockItem(flock)]
    case Rlock(status) => [Flags(1, status)]
  }

  function LockShape(code: u8): Option<seq<Kind>> {
    match code
    case 52 => Some([KU32, K_FLOCK])
    case 53 => Some([KFlags(1, LOCK_STATUS_BITS)])
    case _ => None
  }

  function LockAssemble(code: u8, xs: seq<Item>): Fcall
    requires LockShape(code).Some? && FitsAll(xs, LockShape(code).value)
  {
    match code
    case 52 => Tlock(xs[0].n32, ItemFlock(xs[1]))
    case 53 => Rlock(xs[0].bits)
  }

  // asking about locks

  predicate LockQueryFamily(f: Fcall) {
    f.Tgetlock? || f.Rgetlock?
  }

  function LockQueryOperands(f: Fcall): seq<Item>
    requires LockQueryFamily(f)
  {
    match f
    case Tgetlock(fid, flock) => [U32(fid), GetlockItem(flock)]
    case Rgetlock(flock) => [GetlockItem(flock)]
  }

  function LockQueryShape(code: u8): Option<seq<Kind>> {
    match code
    case 54 => Some([KU32, K_GETLOCK])
    case 55 => Some([K_GETLOCK])
    case _ => None
  }

  function LockQueryAssemble(code: u8, xs: seq<Item>): Fcall
    requires LockQueryShape(code).Some? && FitsAll(xs, LockQueryShape(code).value)
  {
    match code
    case 54 => Tgetlock(xs[0].n32, ItemGetlock(xs[1]))
    case 55 => Rgetlock(ItemGetlock(xs[0]))
  }

  // links and directories

  predicate LinkFamily(f: Fcall) {
    f.Tlink? || f.Rlink? || f.Tmkdir? || f.Rmkdir?
  }

  function LinkOperands(f: Fcall): seq<Item>
    requires LinkFamily(f)
  {
    match f
    case Tlink(dfid, fid, name) => [U32(dfid), U32(fid), Text(name)]
    case Rlink => []
    case Tmkdir(dfid, name, mode, gid) => [U32(dfid), Text(name), U32(mode), U32(gid)]
    case Rmkdir(qid) => [QidItem(qid)]
  }

  function LinkShape(code: u8): Option<seq<Kind>> {
    match code
    case 70 => Some([KU32, KU32, KText])
    case 71 => Some([])
    case 72 => Some([KU32, KText, KU32, KU32])
    case 73 => Some([K_QID])
    case _ => None
  }

  function LinkAssemble(code: u8, xs: seq<Item>): Fcall
    requires LinkShape(code).Some? && FitsAll(xs, LinkShape(code).value)
  {
    match code
    case 70 => Tlink(xs[0].n32, xs[1].n32, xs[2].text)
    case 71 => Rlink
    case 72 => Tmkdir(xs[0].n32, xs[1].text, xs[2].n32, xs[3].n32)
    case 73 => Rmkdir(ItemQid(xs[0]))
  }

  // renames and removals at a directory

  predicate RenameFamily(f: Fcall) {
    f.Trenameat? || f.Rrenameat? || f.Tunlinkat? || f.Runlinkat?
  }

  function RenameOperands(f: Fcall): seq<Item>
    requires RenameFamily(f)
  {
    match f
    case Trenameat(olddirfid, oldname, newdirfid, newname) =>
      [U32(olddirfid), Text(oldname), U32(newdirfid), Text(newname)]
    case Rrenameat => []
    case Tunlinkat(dirfd, name, flags) => [U32(dirfd), Text(name), U32(flags)]
    case Runlinkat => []
  }

  function RenameShape(code: u8): Option<seq<Kind>> {
    match code
    case 74 => Some([KU32, KText, KU32, KText])
    case 75 => Some([])
    case 76 => Some([KU32, KText, KU32])
    case 77 => Some([])
    case _ => None
  }

  function RenameAssemble(code: u8, xs: seq<Item>): Fcall
    requires RenameShape(code).Some? && FitsAll(xs, RenameShape(code).value)
  {
    match code
    case 74 => Trenameat(xs[0].n32, xs[1].text, xs[2].n32, xs[3].text)
    case 75 => Rrenameat
    case 76 => Tunlinkat(xs[0].n32, xs[1].text, xs[2].n32)
    case 77 => Runlinkat
  }

  // version and auth

  predicate SessionFamily(f: Fcall) {
    f.Tversion? || f.Rversion? || f.Tauth? || f.Rauth?
  }

  function SessionOperands(f: Fcall): seq<Item>
    requires SessionFamily(f)
  {
    match f
    case Tversion(msize, version) => [U32(msize), Text(version)]
    case Rversion(msize, version) => [U32(msize), Text(version)]
    case Tauth(afid, uname, aname, nUname) => [U32(afid), Text(uname), Text(aname), U32(nUname)]
    case Rauth(aqid) => [QidItem(aqid)]
  }

  function SessionShape(code: u8): Option<seq<Kind>> {
    match code
    case 100 => Some([KU32, KText])
    case 101 => Some([KU32, KText])
    case 102 => Some([KU32, KText, KText, KU32])
    case 103 => Some([K_QID])
    case _ => None
  }

  function SessionAssemble(code: u8, xs: seq<Item>): Fcall
    requires SessionShape(code).Some? && FitsAll(xs, SessionShape(code).value)
  {
    match code
    case 100 => Tversion(xs[0].n32, xs[1].text)
    case 101 => Rversion(xs[0].n32, xs[1].text)
    case 102 => Tauth(xs[0].n32, xs[1].text, xs[2].text, xs[3].n32)
    case 103 => Rauth(ItemQid(xs[0]))
  }

  // attach

  predicate AttachFamily(f: Fcall) {
    f.Tattach? || f.Rattach?
  }

  function AttachOperands(f: Fcall): seq<Item>
    requires AttachFamily(f)
  {
    match f
    case Tattach(fid, afid, uname, aname, nUname) => [U32(fid), U32(afid), Text(uname), Text(aname), U32(nUname)]
    case Rattach(qid) => [QidItem(qid)]
  }

  function AttachShape(code: u8): Option<seq<Kind>> {
    match code
    case 104 => Some([KU32, KU32, KText, KText, KU32])
    case 105 => Some([K_QID])
    case _ => None
  }

  function AttachAssemble(code: u8, xs: seq<Item>): Fcall
    requires AttachShape(code).Some? && FitsAll(xs, AttachShape(code).value)
  {
    match code
    case 104 => Tattach(xs[0].n32, xs[1].n32, xs[2].text, xs[3].text, xs[4].n32)
    case 105 => Rattach(ItemQid(xs[0]))
  }

  // flush, walk and read

  predicate WalkFamily(f: Fcall) {
    f.Tflush? || f.Rflush? || f.Twalk? || f.Rwalk? || f.Tread? || f.Rread?
  }

  function WalkOperands(f: Fcall): seq<Item>
    requires WalkFamily(f)
  {
    match f
    case Tflush(oldtag) => [U16(oldtag)]
    case Rflush => []
    case Twalk(fid, newfid, wnames) => [U32(fid), U32(newfid), Vector(TextItems(wnames))]
    case Rwalk(wqids) => [Vector(QidItems(wqids))]
    case Tread(fid, offset, count) => [U32(fid), U64(offset), U32(count)]
    case Rread(data) => [Blob(data)]
  }

  function WalkShape(code: u8): Option<seq<Kind>> {
    match code
    case 108 => Some([KU16])
    case 109 => Some([])
    case 110 => Some([KU32, KU32, KVector(KText)])
    case 111 => Some([KVector(K_QID)])
    case 116 => Some([KU32, KU64, KU32])
    case 117 => Some([KBlob])
    case _ => None
  }

  function WalkAssemble(code: u8, xs: seq<Item>): Fcall
    requires WalkShape(code).Some? && FitsAll(xs, WalkShape(code).value)
  {
    match code
    case 108 => Tflush(xs[0].n16)
    case 109 => Rflush
    case 110 => Twalk(xs[0].n32, xs[1].n32, ItemTexts(xs[2].elems))
    case 111 => Rwalk(ItemQids(xs[0].elems))
    case 116 => Tread(xs[0].n32, xs[1].n64, xs[2].n32)
    case 117 => Rread(xs[0].blob)
  }

  // writes, clunk and remove

  predicate DataFamily(f: Fcall) {
    f.Twrite? || f.Rwrite? || f.Tclunk? || f.Rclunk? || f.Tremove? || f.Rremove?
  }

  function DataOperands(f: Fcall): seq<Item>
    requires DataFamily(f)
  {
    match f
    case Twrite(fid, offset, data) => [U32(fid), U64(offset), Blob(data)]
    case Rwrite(count) => [U32(count)]
    case Tclunk(fid) => [U32(fid)]
    case Rclunk => []
    case Tremove(fid) => [U32(fid)]
    case Rremove => []
  }

  function DataShape(code: u8): Option<seq<Kind>> {
    match code
    case 118 => Some([KU32, KU64, KBlob])
    case 119 => Some([KU32])
    case 120 => Some([KU32])
    case 121 => Some([])
    case 122 => Some([KU32])
    case 123 => Some([])
    case _ => None
  }

  function DataAssemble(code: u8, xs: seq<Item>): Fcall
    requires DataShape(code).Some? && FitsAll(xs, DataShape(code).value)
  {
    match code
    case 118 => Twrite(xs[0].n32, xs[1].n64, xs[2].blob)
    case 119 => Rwrite(xs[0].n32)
    case 120 => Tclunk(xs[0].n32)
    case 121 => Rclunk
    case 122 => Tremove(xs[0].n32)
    case 123 => Rremove
  }

  function Operands(f: Fcall): seq<Item> {
    var code := TypeCode(f);
    if code < 16 then OpenOperands(f)
    else if code < 20 then NodeOperands(f)
    else if code < 24 then ReadlinkOperands(f)
    else if code < 26 then GetattrOperands(f)
    else if code < 30 then SetattrOperands(f)
    else if code < 40 then XattrOperands(f)
    else if code < 52 then DirOperands(f)
    else if code < 54 then LockOperands(f)
    else if code < 70 then LockQueryOperands(f)
    else if code < 74 then LinkOperands(f)
    else if code < 100 then RenameOperands(f)
    else if code < 104 then SessionOperands(f)
    else if code < 106 then AttachOperands(f)
    else if code < 118 then WalkOperands(f)
    else DataOperands(f)
  }

  /** No arm for the codes that are no message and for the illegal Tlerror (6). */
  function Shape(code: u8): Option<seq<Kind>> {
    if code < 16 then OpenShape(code)
    else if code < 20 then NodeShape(code)
    else if code < 24 then ReadlinkShape(code)
    else if code < 26 then GetattrShape(code)
    else if code < 30 then SetattrShape(code)
    else if code < 40 then XattrShape(code)
    else if code < 52 then DirShape(code)
    else if code < 54 then LockShape(code)
    else if code < 70 then LockQueryShape(code)
    else if code < 74 then LinkShape(code)
    else if code < 100 then RenameShape(code)
    else if code < 104 then SessionShape(code)
    else if code < 106 then AttachShape(code)
    else if code < 118 then WalkShape(code)
    else DataShape(code)
  }

  function Assemble(code: u8, xs: seq<Item>): Fcall
    requires Shape(code).Some? && FitsAll(xs, Shape(code).value)
  {
    if code < 16 then OpenAssemble(code, xs)
    else if code < 20 then NodeAssemble(code, xs)
    else if code < 24 then ReadlinkAssemble(code, xs)
    else if code < 26 then GetattrAssemble(code, xs)
    else if code < 30 then SetattrAssemble(code, xs)
    else if code < 40 then XattrAssemble(code, xs)
    else if code < 52 then DirAssemble(code, xs)
    else if code < 54 then LockAssemble(code, xs)
    else if code < 70 then LockQueryAssemble(code, xs)
    else if code < 74 then LinkAssemble(code, xs)
    else if code < 100 then RenameAssemble(code, xs)
    else if code < 104 then SessionAssemble(code, xs)
    else if code < 106 then AttachAssemble(code, xs)
    else if code < 118 then WalkAssemble(code, xs)
    else DataAssemble(code, xs)
  }

  // ----- the two directions are inverse, arm by arm -----

  lemma QidThere(q: Qid)
    ensures Fits(QidItem(q), K_QID) && ItemQid(QidItem(q)) == q
  {
  }

  lemma QidBack(x: Item)
    requires Fits(x, K_QID)
    ensures QidItem(ItemQid(x)) == x
  {
    Fields(x, K_QID);
    assert QidItem(ItemQid(x)).fields == x.fields;
  }

  lemma StatfsThere(s: Statfs)
    ensures Fits(StatfsItem(s), K_STATFS) && ItemStatfs(StatfsItem(s)) == s
  {
  }

  lemma StatfsBack(x: Item)
    requires Fits(x, K_STATFS)
    ensures StatfsItem(ItemStatfs(x)) == x
  {
    Fields(x, K_STATFS);
    assert StatfsItem(ItemStatfs(x)).fields == x.fields;
  }

  lemma TimeThere(t: Time)
    ensures Fits(TimeItem(t), K_TIME) && ItemTime(TimeItem(t)) == t
  {
  }

  lemma TimeBack(x: Item)
    requires Fits(x, K_TIME)
    ensures TimeItem(ItemTime(x)) == x
  {
    Fields(x, K_TIME);
    assert TimeItem(ItemTime(x)).fields == x.fields;
  }

  lemma StatThere(s: Stat)
    ensures Fits(StatItem(s), K_STAT) && ItemStat(StatItem(s)) == s
  {
    TimeThere(s.atime);
    TimeThere(s.mtime);
    TimeThere(s.ctime);
  }

  lemma StatBack(x: Item)
    requires Fits(x, K_STAT)
    ensures StatItem(ItemStat(x)) == x
  {
    Fields(x, K_STAT);
    TimeBack(x.fields[8]);
    TimeBack(x.fields[9]);
    TimeBack(x.fields[10]);
    assert StatItem(ItemStat(x)).fields == x.fields;
  }

  lemma SetAttrThere(s: SetAttr)
    ensures Fits(SetAttrItem(s), K_SETATTR) && ItemSetAttr(SetAttrItem(s)) == s
  {
    TimeThere(s.atime);
    TimeThere(s.mtime);
  }

  lemma SetAttrBack(x: Item)
    requires Fits(x, K_SETATTR)
    ensures SetAttrItem(ItemSetAttr(x)) == x
  {
    Fields(x, K_SETATTR);
    TimeBack(x.fields[4]);
    TimeBack(x.fields[5]);
    assert SetAttrItem(ItemSetAttr(x)).fields == x.fields;
  }

  lemma DirEntryThere(e: DirEntry)
    ensures Fits(DirEntryItem(e), K_DIRENT) && ItemDirEntry(DirEntryItem(e)) == e
  {
    QidThere(e.qid);
  }

  lemma DirEntryBack(x: Item)
    requires Fits(x, K_DIRENT)
    ensures DirEntryItem(ItemDirEntry(x)) == x
  {
    Fields(x, K_DIRENT);
    QidBack(x.fields[0]);
    assert DirEntryItem(ItemDirEntry(x)).fields == x.fields;
  }

  lemma FlockThere(f: Flock)
    ensures Fits(FlockItem(f), K_FLOCK) && ItemFlock(FlockItem(f)) == f
  {
  }

  lemma FlockBack(x: Item)
    requires Fits(x, K_FLOCK)
    ensures FlockItem(ItemFlock(x)) == x
  {
    Fields(x, K_FLOCK);
    assert FlockItem(ItemFlock(x)).fields == x.fields;
  }

  lemma GetlockThere(f: Getlock)
    ensures Fits(GetlockItem(f), K_GETLOCK) && ItemGetlock(GetlockItem(f)) == f
  {
  }

  lemma GetlockBack(x: Item)
    requires Fits(x, K_GETLOCK)
    ensures GetlockItem(ItemGetlock(x)) == x
  {
    Fields(x, K_GETLOCK);
    assert GetlockItem(ItemGetlock(x)).fields == x.fields;
  }

  lemma QidsThere(qs: seq<Qid>)
    ensures forall i | 0 <= i < |qs| :: Fits(QidItems(qs)[i], K_QID)
    ensures ItemQids(QidItems(qs)) == qs
  {
    forall i | 0 <= i < |qs| ensures Fits(QidItem(qs[i]), K_QID) && ItemQid(QidItem(qs[i])) == qs[i] {
      QidThere(qs[i]);
    }
  }

  lemma QidsBack(xs: seq<Item>)
    requires forall i | 0 <= i < |xs| :: Fits(xs[i], K_QID)
    ensures QidItems(ItemQids(xs)) == xs
  {
    forall i | 0 <= i < |xs| ensures QidItem(ItemQid(xs[i])) == xs[i] {
      QidBack(xs[i]);
    }
  }

  lemma TextsThere(ss: seq<Str>)
    ensures forall i | 0 <= i < |ss| :: Fits(TextItems(ss)[i], KText)
    ensures ItemTexts(TextItems(ss)) == ss
  {
  }

  lemma TextsBack(xs: seq<Item>)
    requires forall i | 0 <= i < |xs| :: Fits(xs[i], KText)
    ensures TextItems(ItemTexts(xs)) == xs
  {
    forall i | 0 <= i < |xs| ensures Text(xs[i].text) == xs[i] {
      assert Fits(xs[i], KText);
    }
  }

  lemma DirEntriesThere(es: seq<DirEntry>)
    ensures forall i | 0 <= i < |es| :: Fits(DirEntryItems(es)[i], K_DIRENT)
    ensures ItemDirEntries(DirEntryItems(es)) == es
  {
    forall i | 0 <= i < |es| ensures Fits(DirEntryItem(es[i]), K_DIRENT) && ItemDirEntry(DirEntryItem(es[i])) == es[i] {
      DirEntryThere(es[i]);
    }
  }

  lemma DirEntriesBack(xs: seq<Item>)
    requires forall i | 0 <= i < |xs| :: Fits(xs[i], K_DIRENT)
    ensures DirEntryItems(ItemDirEntries(xs)) == xs
  {
    forall i | 0 <= i < |xs| ensures DirEntryItem(ItemDirEntry(xs[i])) == xs[i] {
      DirEntryBack(xs[i]);
    }
  }

  lemma RgetattrThere(valid: GetattrMask, q: Qid, s: Stat)
    ensures FitsAll([Flags(8, valid), QidItem(q), StatItem(s), Zero, Zero, Zero, Zero], K_RGETATTR)
    ensures ItemQid(QidItem(q)) == q && ItemStat(StatItem(s)) == s
  {
    QidThere(q);
    StatThere(s);
  }

  lemma RgetattrBack(xs: seq<Item>)
    requires FitsAll(xs, K_RGETATTR)
    ensures xs == [Flags(8, xs[0].bits), QidItem(ItemQid(xs[1])), StatItem(ItemStat(xs[2])), Zero, Zero, Zero, Zero]
  {
    QidBack(xs[1]);
    StatBack(xs[2]);
    assert Fits(xs[0], K_RGETATTR[0]) && Fits(xs[3], KZero) && Fits(xs[4], KZero)
           && Fits(xs[5], KZero) && Fits(xs[6], KZero);
  }

  lemma OpenThere(f: Fcall)
    requires 7 <= TypeCode(f) < 16
    ensures OpenFamily(f)
    ensures var shape := OpenShape(TypeCode(f));
            shape.Some? && FitsAll(OpenOperands(f), shape.value)
            && OpenAssemble(TypeCode(f), OpenOperands(f)) == f
  {
    if f.Rstatfs? { StatfsThere(f.statfs); }
    if f.Rlopen? || f.Rlcreate? { QidThere(f.qid); }
  }

  lemma OpenBack(code: u8, xs: seq<Item>)
    requires OpenShape(code).Some? && FitsAll(xs, OpenShape(code).value)
    ensures var f := OpenAssemble(code, xs);
            OpenFamily(f) && TypeCode(f) == code && OpenOperands(f) == xs
  {
    if code == 9 { StatfsBack(xs[0]); }
    if code == 13 { QidBack(xs[0]); }
    if code == 15 { QidBack(xs[0]); }
  }

  lemma NodeThere(f: Fcall)
    requires 16 <= TypeCode(f) < 20
    ensures NodeFamily(f)
    ensures var shape := NodeShape(TypeCode(f));
            shape.Some? && FitsAll(NodeOperands(f), shape.value)
            && NodeAssemble(TypeCode(f), NodeOperands(f)) == f
  {
    if f.Rsymlink? { QidThere(f.qid); }
    if f.Rmknod? { QidThere(f.qid); }
  }

  lemma NodeBack(code: u8, xs: seq<Item>)
    requires NodeShape(code).Some? && FitsAll(xs, NodeShape(code).value)
    ensures var f := NodeAssemble(code, xs);
            NodeFamily(f) && TypeCode(f) == code && NodeOperands(f) == xs
  {
    if code == 17 { QidBack(xs[0]); }
    if code == 19 { QidBack(xs[0]); }
  }

  lemma ReadlinkThere(f: Fcall)
    requires 20 <= TypeCode(f) < 24
    ensures ReadlinkFamily(f)
    ensures var shape := ReadlinkShape(TypeCode(f));
            shape.Some? && FitsAll(ReadlinkOperands(f), shape.value)
            && ReadlinkAssemble(TypeCode(f), ReadlinkOperands(f)) == f
  {
  }

  lemma ReadlinkBack(code: u8, xs: seq<Item>)
    requires ReadlinkShape(code).Some? && FitsAll(xs, ReadlinkShape(code).value)
    ensures var f := ReadlinkAssemble(code, xs);
            ReadlinkFamily(f) && TypeCode(f) == code && ReadlinkOperands(f) == xs
  {
  }

  lemma GetattrThere(f: Fcall)
    requires 24 <= TypeCode(f) < 26
    ensures GetattrFamily(f)
    ensures var shape := GetattrShape(TypeCode(f));
            shape.Some? && FitsAll(GetattrOperands(f), shape.value)
            && GetattrAssemble(TypeCode(f), GetattrOperands(f)) == f
  {
    if f.Rgetattr? { RgetattrThere(f.gvalid, f.qid, f.stat); }
  }

  lemma GetattrBack(code: u8, xs: seq<Item>)
    requires GetattrShape(code).Some? && FitsAll(xs, GetattrShape(code).value)
    ensures var f := GetattrAssemble(code, xs);
            GetattrFamily(f) && TypeCode(f) == code && GetattrOperands(f) == xs
  {
    if code == 25 { RgetattrBack(xs); }
  }

  lemma SetattrThere(f: Fcall)
    requires 26 <= TypeCode(f) < 30
    ensures SetattrFamily(f)
    ensures var shape := SetattrShape(TypeCode(f));
            shape.Some? && FitsAll(SetattrOperands(f), shape.value)
            && SetattrAssemble(TypeCode(f), SetattrOperands(f)) == f
  {
    if f.Tsetattr? { SetAttrThere(f.attr); }
  }

  lemma SetattrBack(code: u8, xs: seq<Item>)
    requires SetattrShape(code).Some? && FitsAll(xs, SetattrShape(code).value)
    ensures var f := SetattrAssemble(code, xs);
            SetattrFamily(f) && TypeCode(f) == code && SetattrOperands(f) == xs
  {
    if code == 26 { SetAttrBack(xs[2]); }
  }

  lemma XattrThere(f: Fcall)
    requires 30 <= TypeCode(f) < 40
    ensures XattrFamily(f)
    ensures var shape := XattrShape(TypeCode(f));
            shape.Some? && FitsAll(XattrOperands(f), shape.value)
            && XattrAssemble(TypeCode(f), XattrOperands(f)) == f
  {
  }

  lemma XattrBack(code: u8, xs: seq<Item>)
    requires XattrShape(code).Some? && FitsAll(xs, XattrShape(code).value)
    ensures var f := XattrAssemble(code, xs);
            XattrFamily(f) && TypeCode(f) == code && XattrOperands(f) == xs
  {
  }

  lemma DirThere(f: Fcall)
    requires 40 <= TypeCode(f) < 52
    ensures DirFamily(f)
    ensures var shape := DirShape(TypeCode(f));
            shape.Some? && FitsAll(DirOperands(f), shape.value)
            && DirAssemble(TypeCode(f), DirOperands(f)) == f
  {
    if f.Rreaddir? { DirEntriesThere(f.entries); }
  }

  lemma DirBack(code: u8, xs: seq<Item>)
    requires DirShape(code).Some? && FitsAll(xs, DirShape(code).value)
    ensures var f := DirAssemble(code, xs);
            DirFamily(f) && TypeCode(f) == code && DirOperands(f) == xs
  {
    if code == 41 { DirEntriesBack(xs[0].entries); }
  }

  lemma LockThere(f: Fcall)
    requires 52 <= TypeCode(f) < 54
    ensures LockFamily(f)
    ensures var shape := LockShape(TypeCode(f));
            shape.Some? && FitsAll(LockOperands(f), shape.value)
            && LockAssemble(TypeCode(f), LockOperands(f)) == f
  {
    if f.Tlock? { FlockThere(f.flock); }
  }

  lemma LockBack(code: u8, xs: seq<Item>)
    requires LockShape(code).Some? && FitsAll(xs, LockShape(code).value)
    ensures var f := LockAssemble(code, xs);
            LockFamily(f) && TypeCode(f) == code && LockOperands(f) == xs
  {
    if code == 52 { FlockBack(xs[1]); }
  }

  lemma LockQueryThere(f: Fcall)
    requires 54 <= TypeCode(f) < 70
    ensures LockQueryFamily(f)
    ensures var shape := LockQueryShape(TypeCode(f));
            shape.Some? && FitsAll(LockQueryOperands(f), shape.value)
            && LockQueryAssemble(TypeCode(f), LockQueryOperands(f)) == f
  {
    if f.Tgetlock? { GetlockThere(f.getlock); }
    if f.Rgetlock? { GetlockThere(f.getlock); }
  }

  lemma LockQueryBack(code: u8, xs: seq<Item>)
    requires LockQueryShape(code).Some? && FitsAll(xs, LockQueryShape(code).value)
    ensures var f := LockQueryAssemble(code, xs);
            LockQueryFamily(f) && TypeCode(f) == code && LockQueryOperands(f) == xs
  {
    if code == 54 { GetlockBack(xs[1]); }
    if code == 55 { GetlockBack(xs[0]); }
  }

  lemma LinkThere(f: Fcall)
    requires 70 <= TypeCode(f) < 74
    ensures LinkFamily(f)
    ensures var shape := LinkShape(TypeCode(f));
            shape.Some? && FitsAll(LinkOperands(f), shape.value)
            && LinkAssemble(TypeCode(f), LinkOperands(f)) == f
  {
    if f.Rmkdir? { QidThere(f.qid); }
  }

  lemma LinkBack(code: u8, xs: seq<Item>)
    requires LinkShape(code).Some? && FitsAll(xs, LinkShape(code).value)
    ensures var f := LinkAssemble(code, xs);
            LinkFamily(f) && TypeCode(f) == code && LinkOperands(f) == xs
  {
    if code == 73 { QidBack(xs[0]); }
  }

  lemma RenameThere(f: Fcall)
    requires 74 <= TypeCode(f) < 100
    ensures RenameFamily(f)
    ensures var shape := RenameShape(TypeCode(f));
            shape.Some? && FitsAll(RenameOperands(f), shape.value)
            && RenameAssemble(TypeCode(f), RenameOperands(f)) == f
  {
  }

  lemma RenameBack(code: u8, xs: seq<Item>)
    requires RenameShape(code).Some? && FitsAll(xs, RenameShape(code).value)
    ensures var f := RenameAssemble(code, xs);
            RenameFamily(f) && TypeCode(f) == code && RenameOperands(f) == xs
  {
  }

  lemma SessionThere(f: Fcall)
    requires 100 <= TypeCode(f) < 104
    ensures SessionFamily(f)
    ensures var shape := SessionShape(TypeCode(f));
            shape.Some? && FitsAll(SessionOperands(f), shape.value)
            && SessionAssemble(TypeCode(f), SessionOperands(f)) == f
  {
    if f.Rauth? { QidThere(f.qid); }
  }

  lemma AuthBack(xs: seq<Item>)
    requires FitsAll(xs, [KU32, KText, KText, KU32])
    ensures xs == [U32(xs[0].n32), Text(xs[1].text), Text(xs[2].text), U32(xs[3].n32)]
  {
    assert Fits(xs[0], KU32) && Fits(xs[1], KText) && Fits(xs[2], KText) && Fits(xs[3], KU32);
  }

  lemma SessionBack(code: u8, xs: seq<Item>)
    requires SessionShape(code).Some? && FitsAll(xs, SessionShape(code).value)
    ensures var f := SessionAssemble(code, xs);
            SessionFamily(f) && TypeCode(f) == code && SessionOperands(f) == xs
  {
    if code == 102 {
      AuthBack(xs);
    } else if code == 103 {
      QidBack(xs[0]);
    }
  }

  lemma AttachThere(f: Fcall)
    requires 104 <= TypeCode(f) < 106
    ensures AttachFamily(f)
    ensures var shape := AttachShape(TypeCode(f));
            shape.Some? && FitsAll(AttachOperands(f), shape.value)
            && AttachAssemble(TypeCode(f), AttachOperands(f)) == f
  {
    if f.Rattach? { QidThere(f.qid); }
  }

  lemma AttachBack(code: u8, xs: seq<Item>)
    requires AttachShape(code).Some? && FitsAll(xs, AttachShape(code).value)
    ensures var f := AttachAssemble(code, xs);
            AttachFamily(f) && TypeCode(f) == code && AttachOperands(f) == xs
  {
    if code == 105 { QidBack(xs[0]); }
  }

  lemma WalkThere(f: Fcall)
    requires 106 <= TypeCode(f) < 118
    ensures WalkFamily(f)
    ensures var shape := WalkShape(TypeCode(f));
            shape.Some? && FitsAll(WalkOperands(f), shape.value)
            && WalkAssemble(TypeCode(f), WalkOperands(f)) == f
  {
    if f.Twalk? { TextsThere(f.wnames); }
    if f.Rwalk? { QidsThere(f.wqids); }
  }

  lemma WalkBack(code: u8, xs: seq<Item>)
    requires WalkShape(code).Some? && FitsAll(xs, WalkShape(code).value)
    ensures var f := WalkAssemble(code, xs);
            WalkFamily(f) && TypeCode(f) == code && WalkOperands(f) == xs
  {
    if code == 110 { TextsBack(xs[2].elems); }
    if code == 111 { QidsBack(xs[0].elems); }
  }

  lemma DataThere(f: Fcall)
    requires 118 <= TypeCode(f) < 256
    ensures DataFamily(f)
    ensures var shape := DataShape(TypeCode(f));
            shape.Some? && FitsAll(DataOperands(f), shape.value)
            && DataAssemble(TypeCode(f), DataOperands(f)) == f
  {
  }

  lemma DataBack(code: u8, xs: seq<Item>)
    requires DataShape(code).Some? && FitsAll(xs, DataShape(code).value)
    ensures var f := DataAssemble(code, xs);
            DataFamily(f) && TypeCode(f) == code && DataOperands(f) == xs
  {
  }

  /** For every message: the decoder's arm for its type code accepts the operands of the encoder's
      arm and rebuilds the message. */
  lemma ArmsThere(f: Fcall)
    ensures var shape := Shape(TypeCode(f));
            shape.Some? && FitsAll(Operands(f), shape.value) && Assemble(TypeCode(f), Operands(f)) == f
  {
    var code := TypeCode(f);
    if code < 16 {
      OpenThere(f);
    } else if code < 20 {
      NodeThere(f);
    } else if code < 24 {
      ReadlinkThere(f);
    } else if code < 26 {
      GetattrThere(f);
    } else if code < 30 {
      SetattrThere(f);
    } else if code < 40 {
      XattrThere(f);
    } else if code < 52 {
      DirThere(f);
    } else if code < 54 {
      LockThere(f);
    } else if code < 70 {
      LockQueryThere(f);
    } else if code < 74 {
      LinkThere(f);
    } else if code < 100 {
      RenameThere(f);
    } else if code < 104 {
      SessionThere(f);
    } else if code < 106 {
      AttachThere(f);
    } else if code < 118 {
      WalkThere(f);
    } else {
      DataThere(f);
    }
  }

  /** For every type code with an arm and every list of fields it reads: the encoder's arm for the
      message built from them writes the same fields. */
  lemma ArmsBack(code: u8, xs: seq<Item>)
    requires Shape(code).Some? && FitsAll(xs, Shape(code).value)
    ensures TypeCode(Assemble(code, xs)) == code && Operands(Assemble(code, xs)) == xs
  {
    if code < 16 {
      OpenBack(code, xs);
    } else if code < 20 {
      NodeBack(code, xs);
    } else if code < 24 {
      ReadlinkBack(code, xs);
    } else if code < 26 {
      GetattrBack(code, xs);
    } else if code < 30 {
      SetattrBack(code, xs);
    } else if code < 40 {
      XattrBack(code, xs);
    } else if code < 52 {
      DirBack(code, xs);
    } else if code < 54 {
      LockBack(code, xs);
    } else if code < 70 {
      LockQueryBack(code, xs);
    } else if code < 74 {
      LinkBack(code, xs);
    } else if code < 100 {
      RenameBack(code, xs);
    } else if code < 104 {
      SessionBack(code, xs);
    } else if code < 106 {
      AttachBack(code, xs);
    } else if code < 118 {
      WalkBack(code, xs);
    } else {
      DataBack(code, xs);
    }
  }
}
