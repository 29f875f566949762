// The 9P2000.L data types of fcall.rs: integers with their widths, bit masks, the message
// enumeration, its type codes, and the fids a message names.
module Protocol {
  import opened Wrappers

  type u8 = x: int | 0 <= x < 0x100
  type u16 = x: int | 0 <= x < 0x1_0000
  type u32 = x: int | 0 <= x < 0x1_0000_0000
  type u64 = x: int | 0 <= x < 0x1_0000_0000_0000_0000

  const NOFID: u32 := 0xffff_ffff

  // ----- UTF-8 -----

  predicate Cont(b: u8) {
    0x80 <= b <= 0xbf
  }

  /** The length of the well-formed UTF-8 sequence that starts `s`, or 0 when there is none
      (Table 3-7 of the Unicode Standard). */
  function Utf8Head(s: seq<u8>): (n: nat)
    requires s != []
    ensures n <= |s| && n <= 4
  {
    var b := s[0];
    if b < 0x80 then 1
    else if 0xc2 <= b <= 0xdf && |s| >= 2 && Cont(s[1]) then 2
    else if 0xe0 <= b <= 0xef && |s| >= 3 && Cont(s[1]) && Cont(s[2])
            && (b == 0xe0 ==> s[1] >= 0xa0) && (b == 0xed ==> s[1] <= 0x9f) then 3
    else if 0xf0 <= b <= 0xf4 && |s| >= 4 && Cont(s[1]) && Cont(s[2]) && Cont(s[3])
            && (b == 0xf0 ==> s[1] >= 0x90) && (b == 0xf4 ==> s[1] <= 0x8f) then 4
    else 0
  }

  predicate ValidUtf8(s: seq<u8>) {
    s == [] || (var n := Utf8Head(s); n > 0 && ValidUtf8(s[n..]))
  }

  /** A Rust String: always well-formed, of any length. */
  type Str = s: seq<u8> | ValidUtf8(s) witness []

  // ----- bit masks -----
  // The union of the constants of each mask is a run of low one bits, so keeping only the known
  // bits (`from_bits_truncate`) is reduction modulo the next power of two.

  const LOCK_TYPE_BITS: int := 4        // RDLOCK 0, WRLOCK 1, UNLOCK 2
  const LOCK_FLAG_BITS: int := 4        // BLOCK 1, RECLAIM 2
  const LOCK_STATUS_BITS: int := 4      // SUCCESS 0, BLOCKED 1, ERROR 2, GRACE 3
  const QID_TYPE_BITS: int := 0x100     // every bit is named
  const GETATTR_BITS: int := 0x4000     // MODE 1 .. DATA_VERSION 0x2000
  const SETATTR_BITS: int := 0x200      // MODE 1 .. MTIME_SET 0x100

  type LockType = x: int | 0 <= x < LOCK_TYPE_BITS
  type LockFlag = x: int | 0 <= x < LOCK_FLAG_BITS
  type LockStatus = x: int | 0 <= x < LOCK_STATUS_BITS
  type QidType = x: int | 0 <= x < QID_TYPE_BITS
  type GetattrMask = x: int | 0 <= x < GETATTR_BITS
  type SetattrMask = x: int | 0 <= x < SETATTR_BITS

  // ----- records -----

  datatype Qid = Qid(typ: QidType, version: u32, path: u64)
  datatype Statfs = Statfs(typ: u32, bsize: u32, blocks: u64, bfree: u64, bavail: u64,
                           files: u64, ffree: u64, fsid: u64, namelen: u32)
  datatype Time = Time(sec: u64, nsec: u64)
  datatype Stat = Stat(mode: u32, uid: u32, gid: u32, nlink: u64, rdev: u64, size: u64,
                       blksize: u64, blocks: u64, atime: Time, mtime: Time, ctime: Time)
  datatype SetAttr = SetAttr(mode: u32, uid: u32, gid: u32, size: u64, atime: Time, mtime: Time)
  datatype DirEntry = DirEntry(qid: Qid, offset: u64, typ: u8, name: Str)
  datatype Flock = Flock(typ: LockType, flags: LockFlag, start: u64, length: u64,
                         procId: u32, clientId: Str)
  datatype Getlock = Getlock(typ: LockType, start: u64, length: u64, procId: u32, clientId: Str)

  datatype Fcall =
    // 9P2000.L
    | Rlerror(ecode: u32)
    | Tstatfs(fid: u32)
    | Rstatfs(statfs: Statfs)
    | Tlopen(fid: u32, flags: u32)
    | Rlopen(qid: Qid, iounit: u32)
    | Tlcreate(fid: u32, name: Str, flags: u32, mode: u32, gid: u32)
    | Rlcreate(qid: Qid, iounit: u32)
    | Tsymlink(fid: u32, name: Str, symtgt: Str, gid: u32)
    | Rsymlink(qid: Qid)
    | Tmknod(dfid: u32, name: Str, mode: u32, major: u32, minor: u32, gid: u32)
    | Rmknod(qid: Qid)
    | Trename(fid: u32, dfid: u32, name: Str)
    | Rrename
    | Treadlink(fid: u32)
    | Rreadlink(target: Str)
    | Tgetattr(fid: u32, reqMask: GetattrMask)
    | Rgetattr(gvalid: GetattrMask, qid: Qid, stat: Stat)
    | Tsetattr(fid: u32, svalid: SetattrMask, attr: SetAttr)
    | Rsetattr
    | Txattrwalk(fid: u32, newfid: u32, name: Str)
    | Rxattrwalk(size: u64)
    | Txattrcreate(fid: u32, name: Str, attrSize: u64, flags: u32)
    | Rxattrcreate
    | Treaddir(fid: u32, offset: u64, count: u32)
    | Rreaddir(entries: seq<DirEntry>)
    | Tfsync(fid: u32)
    | Rfsync
    | Tlock(fid: u32, flock: Flock)
    | Rlock(status: LockStatus)
    | Tgetlock(fid: u32, getlock: Getlock)
    | Rgetlock(getlock: Getlock)
    | Tlink(dfid: u32, fid: u32, name: Str)
    | Rlink
    | Tmkdir(dfid: u32, name: Str, mode: u32, gid: u32)
    | Rmkdir(qid: Qid)
    | Trenameat(olddirfid: u32, oldname: Str, newdirfid: u32, newname: Str)
    | Rrenameat
    | Tunlinkat(dirfd: u32, name: Str, flags: u32)
    | Runlinkat
    // 9P2000.u
    | Tauth(afid: u32, uname: Str, aname: Str, nUname: u32)
    | Rauth(qid: Qid)
    | Tattach(fid: u32, afid: u32, uname: Str, aname: Str, nUname: u32)
    | Rattach(qid: Qid)
    // 9P2000
    | Tversion(msize: u32, version: Str)
    | Rversion(msize: u32, version: Str)
    | Tflush(oldtag: u16)
    | Rflush
    | Twalk(fid: u32, newfid: u32, wnames: seq<Str>)
    | Rwalk(wqids: seq<Qid>)
    | Tread(fid: u32, offset: u64, count: u32)
    | Rread(data: seq<u8>)
    | Twrite(fid: u32, offset: u64, data: seq<u8>)
    | Rwrite(count: u32)
    | Tclunk(fid: u32)
    | Rclunk
    | Tremove(fid: u32)
    | Rremove

  datatype Msg = Msg(tag: u16, body: Fcall)

  /** `MsgType::from(&body) as u8`. */
  function TypeCode(f: Fcall): u8 {
    match f
    case Rlerror(_) => 7
    case Tstatfs(_) => 8
    case Rstatfs(_) => 9
    case Tlopen(_, _) => 12
    case Rlopen(_, _) => 13
    case Tlcreate(_, _, _, _, _) => 14
    case Rlcreate(_, _) => 15
    case Tsymlink(_, _, _, _) => 16
    case Rsymlink(_) => 17
    case Tmknod(_, _, _, _, _, _) => 18
    case Rmknod(_) => 19
    case Trename(_, _, _) => 20
    case Rrename => 21
    case Treadlink(_) => 22
    case Rreadlink(_) => 23
    case Tgetattr(_, _) => 24
    case Rgetattr(_, _, _) => 25
    case Tsetattr(_, _, _) => 26
    case Rsetattr => 27
    case Txattrwalk(_, _, _) => 30
    case Rxattrwalk(_) => 31
    case Txattrcreate(_, _, _, _) => 32
    case Rxattrcreate => 33
    case Treaddir(_, _, _) => 40
    case Rreaddir(_) => 41
    case Tfsync(_) => 50
    case Rfsync => 51
    case Tlock(_, _) => 52
    case Rlock(_) => 53
    case Tgetlock(_, _) => 54
    case Rgetlock(_) => 55
    case Tlink(_, _, _) => 70
    case Rlink => 71
    case Tmkdir(_, _, _, _) => 72
    case Rmkdir(_) => 73
    case Trenameat(_, _, _, _) => 74
    case Rrenameat => 75
    case Tunlinkat(_, _, _) => 76
    case Runlinkat => 77
    case Tversion(_, _) => 100
    case Rversion(_, _) => 101
    case Tauth(_, _, _, _) => 102
    case Rauth(_) => 103
    case Tattach(_, _, _, _, _) => 104
    case Rattach(_) => 105
    case Tflush(_) => 108
    case Rflush => 109
    case Twalk(_, _, _) => 110
    case Rwalk(_) => 111
    case Tread(_, _, _) => 116
    case Rread(_) => 117
    case Twrite(_, _, _) => 118
    case Rwrite(_) => 119
    case Tclunk(_) => 120
    case Rclunk => 121
    case Tremove(_) => 122
    case Rremove => 123
  }

  /** `MsgType::is_r`, the explicit list of reply types. */
  predicate IsR(f: Fcall) {
    f.Rlerror? || f.Rstatfs? || f.Rlopen? || f.Rlcreate? || f.Rsymlink? || f.Rmknod? || f.Rrename?
    || f.Rreadlink? || f.Rgetattr? || f.Rsetattr? || f.Rxattrwalk? || f.Rxattrcreate? || f.Rreaddir?
    || f.Rfsync? || f.Rlock? || f.Rgetlock? || f.Rlink? || f.Rmkdir? || f.Rrenameat? || f.Runlinkat?
    || f.Rversion? || f.Rauth? || f.Rattach? || f.Rflush? || f.Rwalk? || f.Rread? || f.Rwrite?
    || f.Rclunk? || f.Rremove?
  }

  /** `Fcall::fids`. */
  function Fids(f: Fcall): seq<u32> {
    match f
    case Tstatfs(fid) => [fid]
    case Tlopen(fid, _) => [fid]
    case Tlcreate(fid, _, _, _, _) => [fid]
    case Tsymlink(fid, _, _, _) => [fid]
    case Tmknod(dfid, _, _, _, _, _) => [dfid]
    case Trename(fid, dfid, _) => [fid, dfid]
    case Treadlink(fid) => [fid]
    case Tgetattr(fid, _) => [fid]
    case Tsetattr(fid, _, _) => [fid]
    case Txattrwalk(fid, _, _) => [fid]
    case Txattrcreate(fid, _, _, _) => [fid]
    case Treaddir(fid, _, _) => [fid]
    case Tfsync(fid) => [fid]
    case Tlock(fid, _) => [fid]
    case Tgetlock(fid, _) => [fid]
    case Tlink(dfid, fid, _) => [dfid, fid]
    case Tmkdir(dfid, _, _, _) => [dfid]
    case Trenameat(olddirfid, _, newdirfid, _) => [olddirfid, newdirfid]
    case Tunlinkat(dirfd, _, _) => [dirfd]
    case Tattach(_, afid, _, _, _) => if afid != NOFID then [afid] else []
    case Twalk(fid, _, _) => [fid]
    case Tread(fid, _, _) => [fid]
    case Twrite(fid, _, _) => [fid]
    case Tclunk(fid) => [fid]
    case Tremove(fid) => [fid]
    case _ => []
  }

  /** `Fcall::newfid`. */
  function NewFid(f: Fcall): Option<u32> {
    match f
    case Txattrwalk(_, newfid, _) => Some(newfid)
    case Tauth(afid, _, _, _) => Some(afid)
    case Tattach(fid, _, _, _, _) => Some(fid)
    case Twalk(_, newfid, _) => Some(newfid)
    case _ => None
  }
}
