# cpu: models and proofs

`cpu` runs a command on a remote machine as if it were local: a client sends a command line, an
environment and a list of mounts, serves its own files over 9P, and the remote side mounts them and
starts the command. The repository holds a Go implementation (`client`, `mount`, `ds`) and a Rust one
(`p9cpu`). This project models the parts of both whose logic is not I/O, in Dafny, and proves what they
promise. `dafny verify dfyconfig.toml` checks all of it.

What is modelled, one group of modules for each part:

- **9P server dispatch** (`Protocol`, `Dispatch`, `DispatchRuns`, `TableChanges`, `DispatchLaws`, `Tags`,
  `Progress`, `Serializable`, `Races`; `srv.rs`, `fcall.rs`).
  Each message runs as a task of its own against a shared fid table. A step of the model is one lock
  section: the lookups begin a read section that lasts until the filesystem call returns, each table
  change is a write section, and the reply comes last. The filesystem is an oracle that answers request
  number i on the fids it was given. A class with the table as its field is the serial reference.
- **9P2000.L codec** (`Wire`, `WireLaws`, `Codec`, `Messages`, `Masks`, `MessageLaws`, `CodecIO`, `Utf8`,
  `WireFormat`, `ReadErrors`; `serialize.rs`).
  All 57 messages as trees of primitive encodings, with real integer widths, casts of lengths, masks that
  are truncated on decoding, reserved words and UTF-8 checks; as functions, as an encoder that appends to
  a writer and a decoder that advances a reader, and as plain bytes.
- **File servers** (`Unpfs`, `Paging`, `Listings`; `unpfs.rs`, and `Text`, `TextLaws`, `Cpio`, `CpioLaws`,
  `CpioQids`, `CpioTree`; `cpio9p.go`): walks over the host's paths, directories read page by page, and
  an archive served through a map of names and a linear scan.
- **Namespace and command line** (`Namespace`, `NamespaceLaws`, `MountLaws`, `BindLaws`, `Quote`, `Escape`;
  `fns.go`, `client.go`, `mount`): the fstab that a client prints and a server mounts, the quoted command
  line and the word splitter that undoes it, and the escape that closes a session.
- **p9cpu sessions and relay** (`Relay`, `Forwarding`, `Sessions`, `SessionPorts`, `FsTab`; `server.rs`,
  `client.rs`, `lib.rs`): the chunk relay as runs of a sender, a bounded channel and a reader, and the
  one loop that serves both of its directions; the life cycle of sessions over all interleavings of its calls; the
  mount table of a session.
- **Server selection** (`Select`, `Lookup`, `Queries`; `ds.go`): requirements, comparison by several keys, a sort
  in place, and the first n.

`Wrappers` holds `Option` and `Result`.

## What the code does that its documentation or the obvious claim does not say

- A Tattach that names an authentication fid lists it among its fids, but dispatch never looks it up
  (`Dispatch.FidsAreLookedUp`). Tremove leaves its fid in the table
  (`TableChanges.TableWriters`).
- The client has to keep conflicting requests apart: for every pair of which one changes a fid that the
  other looks up or changes, some schedule differs from dispatch in arrival order (`Races.OverlapExactly`).
- An error reply can follow a table change, if the filesystem returns an Rlerror as a success
  (`TableChanges.ErrorRepliesChangeNothing`, `TableChanges.ErrorReplyAfterBind`).
- A directory listing is written with its size in bytes and read with a number of entries, so only an
  empty one reads back (`MessageLaws.ReaddirRoundTrip`).
- A partial walk binds the new fid to a path that does not resolve (`Unpfs.NewFidResolves`).
- The first page of a directory always holds the two dot entries, so it can exceed the count by which it
  was asked for (`Paging.PageSize`).
- In the archive server, a second walk from "." that begins with an empty or rooted name is not the joined
  walk (`CpioLaws.WalksComposeExactly`).
- A second tilde after a newline while one is held back is dropped (`Escape.BytesAreConserved`).
- The 9P relay writes each reply once and loses what that write does not take. One loop serves both of its
  directions, so replies are also lost when the requests end, and requests when a reply is empty
  (`Forwarding.RepliesConservedExactly`, `Forwarding.RequestsConservedExactly`,
  `Forwarding.RequestEndDropsReplies`).
- An id that is dialled again while its session runs loses the new entry (`Sessions.DuplicateExactly`,
  `Sessions.ReusedIdIsLost`). A wait removes whatever session its id has when it ends, which need not be
  the one it waited for (`Sessions.WaitRemovesItsOwn`, `Sessions.LateWaitRemovesAnother`).
- A line of the user's table that is too long for the scanner hides the namespace behind it
  (`BindLaws.DialMountsExactly`).
- `Lookup` with n = 0 returns one entry; the bounds of requirements are inclusive, and NaN meets both; the
  sort operators '=' and '!', documented as being about the existence of a key, compare the byte
  lengths of its values; an entry without a number makes the numeric comparison no order (`Lookup.Front`,
  `Select.BoundsAreInclusive`, `Select.OneKeyExactly`).

## Model

| member | source | states |
|---|---|---|
| Dispatch.FidTable.GetFids | p9cpu/crates/9p/src/srv.rs:275-306 | the fids of a request are found exactly if all of them are bound, each with its entry; the error is EBADF |
| Dispatch.FidTable.DispatchOnce | p9cpu/crates/9p/src/srv.rs:258-324 | one call served alone gives the answer and the table of the reference `Serve`: a failed lookup or call changes nothing, Tclunk drops its fid, a new fid is bound to the state of this request |
| Dispatch.FidTable.DispatchAll | p9cpu/crates/9p/src/srv.rs:353-389 | serving a queue one message at a time is the serial reference: the table and every answer |
| DispatchLaws.ServesOnce | p9cpu/crates/9p/src/srv.rs:258-324 | one message served alone, told from the message: a reply is answered 95 and an unbound fid 9, both without a change; otherwise the filesystem gets the entries of the fids in order, and if it accepts, Twalk, Txattrwalk, Tauth and Tattach bind their new fid to this request, Tclunk drops its fid, and nothing else changes |
| DispatchLaws.LooksUpOperands | p9cpu/crates/9p/src/srv.rs:275-306 | what each request looks up are the operands of its message that are fids in use, in the order of the wire |
| DispatchLaws.RepliesAreOdd | p9cpu/crates/9p/src/fcall.rs:602-643 | the replies are exactly the messages with an odd type code |
| Dispatch.FidsAreLookedUp | p9cpu/crates/9p/src/fcall.rs:944-978 | the fids a message names are those that dispatch looks up, if and only if it is not a Tattach with an authentication fid |
| DispatchRuns.RunsKeepTasks | p9cpu/crates/9p/src/srv.rs:273-323 | in every interleaving, a task inside its read section still sees the entries it looked up, and every phase is the one its lookups and the call lead to |
| DispatchRuns.EveryRequestInOrder | p9cpu/crates/9p/src/srv.rs:309-388 | in every interleaving, what each request does is exactly: its table change if the call succeeded, then one reply with its own tag |
| TableChanges.TableWriters | p9cpu/crates/9p/src/srv.rs:258-322 | in every interleaving, an entry that differs from what it was at an earlier point was changed in between by a Tclunk of its fid, or by a Tauth, Tattach, Twalk or Txattrwalk that names it as the new fid; so Tremove and Tversion leave their fid bound |
| DispatchLaws.ChangesAreMade | p9cpu/crates/9p/src/srv.rs:318-388 | in every interleaving a request has changed the entry of a fid if and only if it was accepted and drops that fid or names it as its new one |
| DispatchLaws.ChangesAreWritten | p9cpu/crates/9p/src/srv.rs:312-321 | in every interleaving a table change is the one that its message says |
| DispatchLaws.RepliesAnswer | p9cpu/crates/9p/src/srv.rs:353-389 | in every interleaving a reply has the tag of its message, is an R-message, and is what the filesystem returned or an Rlerror with the number of the error |
| DispatchLaws.ArrivedTagsAre | p9cpu/crates/9p/src/srv.rs:353-389 | the tags that arrive are those of the messages |
| TableChanges.ErrorsChangeNothing | p9cpu/crates/9p/src/srv.rs:275-321 | a request whose lookups or call failed has changed no entry |
| TableChanges.ErrorRepliesChangeNothing | p9cpu/crates/9p/src/srv.rs:364-388 | a request to which an Rlerror was sent has changed no entry, if and only if it is none that changes one or the filesystem did not itself return that Rlerror as a success |
| TableChanges.ErrorReplyAfterBind | p9cpu/crates/9p/src/srv.rs:318-388 | a run in which an attach binds its fid and is then answered by an Rlerror |
| Tags.TagsAreConserved | p9cpu/crates/9p/src/srv.rs:353-389 | in every interleaving, received tags are the replied tags, the tags in flight and those whose call gave no R-message |
| Tags.EveryTagIsAnswered | p9cpu/crates/9p/src/srv.rs:371-388 | with a filesystem that returns only R-messages, received tags are the replied tags and the tags in flight |
| Progress.SomeStepIsEnabled | p9cpu/crates/9p/src/srv.rs:273-321 | while a request is outstanding some step of a task is possible and brings the run closer to its end |
| Progress.RunsCanFinish | p9cpu/crates/9p/src/srv.rs:273-389 | every run can be carried on until all its requests are finished: the locks cannot deadlock |
| Serializable.CarefulRunsAreSerial | p9cpu/crates/9p/src/srv.rs:258-389 | the invariant holds in every careful interleaving |
| Serializable.Serializability | p9cpu/crates/9p/src/srv.rs:258-389 | if no message is sent that conflicts with an outstanding one, every lookup, every reply and the final fid table equal those of serial dispatch in arrival order |
| Races.ConflictsRace | p9cpu/crates/9p/src/srv.rs:258-389 | for every pair of messages that conflict - lookups, binds and clunks against each other - there is a run, careful in all else, that differs from serial dispatch |
| Races.OverlapExactly | p9cpu/crates/9p/src/srv.rs:258-389 | two messages may be outstanding together, for every filesystem and schedule, if and only if neither changes a fid that the other touches |
| Utf8.StringsAreEncodings | p9cpu/crates/9p/src/serialize.rs:547-552 | the bytes that are taken for a string are exactly the UTF-8 encodings of sequences of characters, given by arithmetic on code points |
| Utf8.ReadsStrings | p9cpu/crates/9p/src/serialize.rs:547-552 | a length prefix and that many bytes are read as a string if they encode one, and are InvalidUtf8 if not |
| Utf8.ShortStrings | p9cpu/crates/9p/src/serialize.rs:30-33 | a stream too short for its string is UnexpectedEof |
| WireFormat.WritesFrame | p9cpu/crates/9p/src/serialize.rs:336-516 | what is written for each of the 57 messages is its code, its tag and its fields in order, byte by byte, in a reference that knows only integers, strings and lists |
| WireFormat.ReadsFrame | p9cpu/crates/9p/src/serialize.rs:686-908 | from these bytes the message is read, whatever follows, if and only if it lies in the round-trip domain |
| ReadErrors.CutMessages | p9cpu/crates/9p/src/serialize.rs:686-903 | any proper front part of any encoding of any message is reported as UnexpectedEof |
| ReadErrors.UnknownCode | p9cpu/crates/9p/src/serialize.rs:686-697 | fewer than three bytes are UnexpectedEof, and an unknown type code is InvalidType whatever follows |
| Wire.IntOfLE | p9cpu/crates/9p/src/serialize.rs:153-178 | a little-endian integer in range reads back |
| Wire.LEOfInt | p9cpu/crates/9p/src/serialize.rs:523-545 | every byte string is the encoding of the integer it reads as |
| Wire.Bytes | p9cpu/crates/9p/src/serialize.rs:153-334 | the length of what each encoder writes |
| Wire.Decode | p9cpu/crates/9p/src/serialize.rs:523-684 | whatever decoding accepts is a value of the kind asked for, with its masks truncated |
| WireLaws.DecodeSound | p9cpu/crates/9p/src/serialize.rs:523-684 | whatever the decoder takes from the front of the stream is an encoding of the value it returns |
| WireLaws.DecodeComplete | p9cpu/crates/9p/src/serialize.rs:523-684 | every encoding of a value is decoded to it, and what follows is left alone |
| WireLaws.WireIsEncoding | p9cpu/crates/9p/src/serialize.rs:180-334 | what the encoder writes for a value is an encoding of it, if and only if its lengths fit their prefixes and its listings are empty |
| Codec.ArmsThere | p9cpu/crates/9p/src/serialize.rs:336-516 | for each of the 57 messages: its operands have the shape that its type code selects in the decoder, and assembling them gives the message back |
| Codec.ArmsBack | p9cpu/crates/9p/src/serialize.rs:686-897 | for each type code: what is assembled from operands of its shape has that code and those operands |
| Messages.ReadIsDecode | p9cpu/crates/9p/src/serialize.rs:686-903 | reading a message is decoding its type code, its tag and the operands of its arm |
| Messages.ReaderIsInverse | p9cpu/crates/9p/src/serialize.rs:686-903 | for all bytes: reading gives a message and a rest if and only if the bytes are an encoding of the message and then the rest |
| Messages.RoundTrip | p9cpu/crates/9p/src/serialize.rs:900-908 | a written message followed by anything is read back with the rest untouched, if and only if its lengths fit and its listing is empty |
| Messages.PrefixFree | p9cpu/crates/9p/src/serialize.rs:900-908 | messages in the round-trip domain with the same bytes in front are equal: the encoding is self-delimiting and injective |
| Messages.StreamRoundTrip | p9cpu/crates/9p/src/serialize.rs:900-908 | messages written back to back, with anything behind them, are read as exactly that sequence with the rest untouched, if and only if each lies in the round-trip domain |
| MessageLaws.EncodingsAreFaithful | p9cpu/crates/9p/src/serialize.rs:523-684 | what was decoded without a listing lies in the round-trip domain |
| MessageLaws.ReadMessagesRoundTrip | p9cpu/crates/9p/src/serialize.rs:686-897 | every message read from any bytes, other than Rreaddir, can be written and read again unchanged |
| Masks.MaskKeepsKnownBits | p9cpu/crates/9p/src/serialize.rs:555-672 | truncating a mask changes, byte for byte, unknown bits only |
| Masks.KnownBits | p9cpu/crates/9p/src/fcall.rs:144-289 | which bits of each mask are known: all of a qid type, two of the lock masks, fourteen of a getattr mask, nine of a setattr mask |
| MessageLaws.EncodingsAgree | p9cpu/crates/9p/src/serialize.rs:547-684 | any encoding of a value is what the encoder writes for it, byte for byte up to unknown mask bits, reserved words and listing prefixes |
| MessageLaws.RewritingIsLocal | p9cpu/crates/9p/src/serialize.rs:686-908 | the bytes a message was read from and those it is written as have the same length and differ only in unknown mask bits, reserved words and a listing prefix |
| MessageLaws.ListingSize | p9cpu/crates/9p/src/fcall.rs:444-475 | the size of a listing is the number of its entry bytes, modulo 2^32 |
| MessageLaws.ReaddirPrefix | p9cpu/crates/9p/src/serialize.rs:262-282 | in a written Rreaddir the four-byte prefix is the number of entry bytes that follow, if that fits |
| MessageLaws.ReaddirRoundTrip | p9cpu/crates/9p/src/serialize.rs:632-640 | a written Rreaddir whose size fits its prefix reads back if and only if it has no entries |
| CodecIO.Encode | p9cpu/crates/9p/src/serialize.rs:153-334 | an encoder appends exactly the bytes of the value and returns their number |
| CodecIO.EncodeChain | p9cpu/crates/9p/src/serialize.rs:57-96 | a chain of `<<` appends its operands in order, and its count is the number of bytes appended |
| CodecIO.WriteMsg | p9cpu/crates/9p/src/serialize.rs:905-908 | writing appends the bytes of the message and returns their number |
| CodecIO.Reader.ReadExact | p9cpu/crates/9p/src/serialize.rs:30-37 | a read of n bytes takes exactly n from the front or fails |
| CodecIO.DecodeItem | p9cpu/crates/9p/src/serialize.rs:523-684 | the decoder that advances a reader agrees with the decoding function, also in its errors |
| CodecIO.DecodeElems | p9cpu/crates/9p/src/serialize.rs:675-684 | a counted vector is read element by element |
| CodecIO.ReadMsg | p9cpu/crates/9p/src/serialize.rs:900-903 | reading from a stream gives the message, and leaves the reader at the rest |
| Unpfs.Server.Attach | p9cpu/crates/9p/src/unpfs.rs:55-71 | attaching sets the path of the fid to the root, whether or not the root resolves |
| Unpfs.PushNames | p9cpu/crates/9p/src/unpfs.rs:79-100 | the loop returns the qids and the path of the walk, or the error of the first name |
| Unpfs.Server.WalkTo | p9cpu/crates/9p/src/unpfs.rs:73-108 | the new fid gets the path of the walk on success and keeps its own on failure |
| Unpfs.LongestRun | p9cpu/crates/9p/src/unpfs.rs:85-100 | the qids are those of exactly the longest initial run of paths that resolve |
| Unpfs.WalkFailsAtFirst | p9cpu/crates/9p/src/unpfs.rs:88-97 | a walk fails if and only if there is a first name and it does not resolve |
| Unpfs.NewFidResolves | p9cpu/crates/9p/src/unpfs.rs:85-105 | after a walk the new fid resolves if and only if the walk was complete; after a partial one its path includes the name that failed |
| Unpfs.EmptyWalkClones | p9cpu/crates/9p/src/unpfs.rs:79-105 | a walk of no names clones the fid |
| Unpfs.WalksCompose | p9cpu/crates/9p/src/unpfs.rs:73-108 | after a complete walk a second one reaches what the joined walk reaches, and the qids follow one another; if the second fails, the joined one is partial |
| Unpfs.JoinedPath | p9cpu/crates/9p/src/unpfs.rs:85-86 | from any path, also the root, a walk of names without slashes ends at the joined path |
| Unpfs.AbsoluteStartsAgain | p9cpu/crates/9p/src/unpfs.rs:85-86 | an absolute name starts the path again, whatever was pushed before |
| Unpfs.ErrorsAre | p9cpu/crates/9p/src/unpfs.rs:88-97 | the error of a path that does not resolve, and of a walk that fails |
| Paging.ReadDir | p9cpu/crates/9p/src/unpfs.rs:196-223 | a page as the reference describes it, with the errors of the host |
| Listings.PageLists | p9cpu/crates/9p/src/unpfs.rs:196-223 | every page of any directory holds the entries of consecutive places, with the names and qids that the host gave, type 0, and their places as offsets |
| Listings.PageFails | p9cpu/crates/9p/src/unpfs.rs:199-217 | a page fails with the first error of the host: for ".", "..", the directory, or a file on the way; each of the first three makes it fail |
| Listings.ClientLists | p9cpu/crates/9p/src/unpfs/utils.rs:35-53 | a client that asks until a page is empty gets ".", ".." and every file once, by name and qid and in order, if and only if each entry fits in a page of its own |
| Paging.PageIsSlice | p9cpu/crates/9p/src/unpfs.rs:196-223 | on an unchanging directory a page is the run of entries after the given offset that fits |
| Paging.PageSize | p9cpu/crates/9p/src/unpfs.rs:199-219 | a page has at most the bytes asked for, if and only if it is not the first or at least 51 are asked for |
| Paging.EnumerateIsComplete | p9cpu/crates/9p/src/unpfs.rs:196-223 | asking again with the last offset until a page is empty ends, and gives ".", ".." and then every file once and in order, if and only if each entry fits in a page of its own |
| Paging.ClientGetsAll | p9cpu/crates/9p/src/unpfs.rs:196-223 | the same of a client that reads the pages the server sends |
| Paging.Resume | p9cpu/crates/9p/src/unpfs.rs:199-212 | going on from any entry but "." gives the entries after it |
| Paging.ResumeAtDot | p9cpu/crates/9p/src/unpfs.rs:199-205 | going on from "." begins again |
| Paging.BytesOnTheWire | p9cpu/crates/9p/src/fcall.rs:444-475 | the sizes that paging adds up are the bytes that the codec writes |
| Paging.ReplyFitsTheCount | p9cpu/crates/9p/src/unpfs.rs:196-223 | the entry bytes of the reply stay within the count of the request, but for the first page of a count below 51 |
| Cpio.LastIndexIs | client/cpio9p.go:80-86 | the last record of a name |
| Cpio.Archive.constructor | client/cpio9p.go:80-86 | the loop over the records builds a map that holds exactly their names, each with its last index |
| Cpio.Archive.New | client/cpio9p.go:62-87 | an archive without records is an error |
| Cpio.Fid.Walk | client/cpio9p.go:136-186 | a walk over the map gives the qids and the record of the reference, or the error; the fid it returns is valid |
| CpioQids.WalkReaches | client/cpio9p.go:109-186 | in every archive a walk succeeds exactly if each path on the way names a record, and gives for each name the qid of the last record of that name: its index as path, and the type of its format bits |
| CpioQids.SameQidSameRecord | client/cpio9p.go:130-132 | two walks that end with the same qid reached the same record |
| Cpio.ScanNames | client/cpio9p.go:257-275 | the scan that lists a directory |
| Cpio.Fid.ReadDir | client/cpio9p.go:247-275 | the indices that the scan keeps, after the record itself |
| CpioLaws.StepsAppend | client/cpio9p.go:168-184 | a walk goes on from the name of the record it reached |
| CpioLaws.WalksCompose | client/cpio9p.go:136-186 | in every archive, walking a and then b is walking a followed by b, with the qids of both, unless the first walk ends at "." and the second begins with an empty or rooted name |
| CpioLaws.ComposeWitness | client/cpio9p.go:164-169 | for each such beginning there is an archive in which the two differ |
| CpioLaws.WalksComposeExactly | client/cpio9p.go:136-186 | second walks compose in every archive if and only if their first name is neither empty nor rooted |
| CpioTree.ListingIsChildren | client/cpio9p.go:247-275 | in an archive that holds a tree, a listing is the strictly increasing list of exactly the direct children |
| CpioTree.WalkFindsListing | client/cpio9p.go:136-186 | a walk by one ordinary name reaches a record if and only if that record is listed and has that last name |
| CpioTree.WalkFailsOffListing | client/cpio9p.go:170-173 | such a walk fails if and only if nothing listed has that name |
| CpioTree.WalkUp | client/cpio9p.go:168-184 | a walk by ".." goes from a listed record to the directory that lists it |
| CpioTree.DownAndUp | client/cpio9p.go:136-186 | down by a name and up again is back at the start, with both qids |
| Namespace.ParseBind | client/fns.go:296-322 | one element of a namespace: its target and remote name, or what is wrong with it |
| Namespace.ParseBinds | client/fns.go:284-330 | the table of the binds and the first error; an empty element discards the table, the other errors keep what came before |
| Namespace.JoinFSTab | client/fns.go:335-346 | the joined text, and the tables trimmed in place |
| Namespace.Word | mount/mount_linux.go:81 | a field ends at whitespace |
| Namespace.ParseOptions | mount/mount.go:36-60 | the flags and the remaining text of an option list |
| Namespace.MountLine | mount/mount_linux.go:77-111 | one line: no call for a comment or a short line, otherwise the call of its fields |
| Namespace.Mount | mount/mount_linux.go:71-116 | every entry is tried in order, up to the first line that is too long for the scanner, and exactly the calls that the mounter fails are reported, also one of two equal ones |
| MountLaws.EveryLine | mount/mount_linux.go:81 | every line is made of words with whitespace around them |
| MountLaws.FieldsAreWords | mount/mount_linux.go:81 | the fields of a line are its words, whatever whitespace is between them |
| MountLaws.LineAsks | mount/mount_linux.go:77-111 | a line that begins with # or has fewer than six words asks for nothing; any other for exactly one mount: first and second word with links followed, third word as type, the flags of the known options, and the other options but "defaults" and those to ignore as text, in order |
| MountLaws.TrimSpaceIs | mount/mount.go:38-39 | trimming takes the whitespace off both ends of an option list and nothing else |
| MountLaws.ReadsLine | mount/mount_linux.go:73-76 | a line of 65536 bytes or more ends the reading, any other is followed by the rest |
| MountLaws.FailingAre | mount/mount_linux.go:112-116 | the calls reported are exactly those that fail, in order |
| NamespaceLaws.TrimIs | client/fns.go:335-346 | trimming takes the newlines off both ends of a table and nothing else |
| NamespaceLaws.JoinKeepsEntries | client/fns.go:335-346 | for any tables, the entries of the joined text are those of each table, one after the other |
| NamespaceLaws.JoinMountsInTurn | client/fns.go:335-346 | for any tables, mounting the joined text is mounting each in turn, up to the first table with a line too long for the scanner |
| NamespaceLaws.JoinKeepsMounts | client/fns.go:335-346 | so it is mounting all of them, if no line is too long |
| BindLaws.FormatRoundTrip | client/fns.go:290-322 | every list of binds that can be written down is what its text parses to |
| BindLaws.AcceptedBind | client/fns.go:301-310 | what is before the first equals sign is the target, what is after it the remote name |
| BindLaws.Accepts | client/fns.go:295-322 | a namespace is accepted if and only if each element is not empty and neither begins nor ends at its first equals sign |
| BindLaws.Rejects | client/fns.go:295-322 | what is wrong with the first bad element, at which place, and how many binds come before it |
| BindLaws.BadElements | client/fns.go:295-322 | an element is bad exactly if it is empty, begins with an equals sign, or has its only one at the end |
| BindLaws.SourceIs | client/fns.go:324 | for a remote name of ordinary elements the source is that name below /tmp/cpu |
| BindLaws.SourceIsClean | client/fns.go:324 | the source of a bind mount is a clean absolute path |
| BindLaws.OptionsAddUp | mount/mount.go:39-57 | the flags of two option lists join, and what is left stays in order |
| BindLaws.LineIsMount | client/fns.go:324 | a printed line whose source and target have no whitespace asks for exactly one bind mount: cleaned source, target, only the bind flag, empty data |
| BindLaws.TableIsMounted | mount/mount_linux.go:71-116 | the printed table makes one such mount for each bind whose line the scanner reaches, in order |
| BindLaws.NamespaceIsMounted | mount/mount_linux.go:71-116 | from the namespace string to the mounts: without whitespace and with short lines, exactly one bind mount per bind, in order |
| BindLaws.NamespaceIsMountedExactly | mount/mount_linux.go:71-116 | without symbolic links: the mounts are those of the namespace if and only if no cleaned source and no target has whitespace in it and no line is too long |
| BindLaws.BindsComeLast | client/client.go:325-329 | after a table of the user, the binds are mounted after its entries, also with symbolic links |
| BindLaws.DialMountsExactly | client/client.go:325-329 | as Dial joins them, behind any table of the user and without symbolic links: the mounts are the user's and then those of the namespace, if and only if that condition holds and, unless the namespace is empty, no line of the user's table is too long |
| Quote.RunQuoteArg | client/client.go:424-426 | a splitter between words takes a quoted argument as one word, the argument |
| Quote.QuotingRoundTrip | client/client.go:505-509 | the words of the quoted arguments are the arguments, for every list of strings |
| Quote.CommandRoundTrip | client/client.go:496-509 | after a command with no open quote, the words are those of the command and then the arguments |
| Quote.SessionWords | client/client.go:496-509 | the server gets the port option as one word, then the arguments |
| Quote.BuildCommand | client/client.go:496-509 | the loop and the join build that line |
| Escape.NewLineIs | client/client.go:590-631 | the newline flag is set if and only if the input so far ends with a newline or return and dots |
| Escape.TildeIs | client/client.go:590-631 | while the session is open, the tilde flag is set if and only if the input ends with a newline or return, dots, a tilde, and then newlines, returns and tildes |
| Escape.ClosesAtFirstEscape | client/client.go:589-633 | the session closes at exactly the first dot that ends such a match |
| Escape.EachByteAdds | client/client.go:597-631 | what each byte adds: a tilde at a line end nothing, an ordinary byte behind an escape the held tilde and itself, and all else itself |
| Escape.OthersAreForwarded | client/client.go:597-631 | all bytes but tildes are forwarded unchanged and in order |
| Escape.BytesAreConserved | client/client.go:597-631 | every byte read is forwarded, held back, or a tilde dropped because another was held back |
| Escape.ForwardedUnchanged | client/client.go:597-631 | the input is forwarded unchanged if and only if it does not stop, and no newline comes, while an escape is under way |
| Escape.CopyByte | client/client.go:597-631 | one byte of the switch, with writes that can fail |
| Escape.CopyInput | client/fns.go:129-173 | the whole loop, the same in both places: what is written is the output up to the closing point, cut where the pipe fails, and the session is closed exactly if that point is reached |
| Relay.StreamReader.Read | p9cpu/crates/libp9cpu/src/client.rs:94-125 | a read of any size: what is delivered, waits or ends, and what is left in the buffer and the channel |
| Relay.PollConserves | p9cpu/crates/libp9cpu/src/client.rs:99-124 | one read delivers the front of what is buffered and queued, and no more than asked for |
| Relay.PollDelivers | p9cpu/crates/libp9cpu/src/client.rs:99-124 | a read delivers as much as there is room for of what is buffered, and else of the next chunk |
| Relay.EveryRunConserves | p9cpu/crates/libp9cpu/src/server.rs:368-379 | in every run, bytes delivered, then the buffer, then the queue, then the chunk in hand are the bytes read from the socket; no empty chunk is on the way |
| Relay.EmptyReadIsEnd | p9cpu/crates/libp9cpu/src/client.rs:99-124 | in every run, a read with room delivers nothing if and only if the sender has stopped and everything was delivered |
| Relay.ReadsDeliver | p9cpu/crates/libp9cpu/src/client.rs:110-122 | a read waits only if nothing has arrived |
| Relay.Source.Read | p9cpu/crates/libp9cpu/src/server.rs:123 | a read gives a front part of what is to come, and nothing only at the end |
| Relay.CopyTo | p9cpu/crates/libp9cpu/src/server.rs:117-131 | the chunks have 1 to 128 bytes, and together with one that a closed channel refused they are what the source gave, up to an error |
| Relay.SenderWriter.Write | p9cpu/crates/libp9cpu/src/client.rs:147-179 | a write is refused, waits, or sends all its bytes as one chunk; an empty chunk is never sent |
| Relay.SenderWriter.Shutdown | p9cpu/crates/libp9cpu/src/client.rs:195-210 | a sender is closed once |
| Forwarding.Forward | p9cpu/crates/libp9cpu/src/server.rs:368-392 | the one loop for both directions: the chunks sent, the bytes written and how it ends are those of its turns up to the first that ends it |
| Forwarding.EndsAtFirst | p9cpu/crates/libp9cpu/src/server.rs:368-391 | the loop ends at the first turn that is neither a request that the channel takes nor a reply of which some is taken: in order at the end of a stream and at a write that takes nothing, with an error otherwise |
| Forwarding.RepliesConservedExactly | p9cpu/crates/libp9cpu/src/server.rs:368-392 | replies reach the local client whole if and only if the single write of each takes its whole chunk and the loop does not end before the last of them, at an empty chunk, a failed write, or with the requests: their end, an error or a closed channel |
| Forwarding.RequestsConservedExactly | p9cpu/crates/libp9cpu/src/server.rs:368-392 | requests reach the channel whole if and only if none is refused and the loop does not end before the last of them, which a reply can make it do |
| Forwarding.RequestEndDropsReplies | p9cpu/crates/libp9cpu/src/server.rs:369-391 | a run in which every write takes its whole chunk, none is empty, and a reply is lost because the requests end first |
| Sessions.Server.DialSession | p9cpu/crates/libp9cpu/src/server.rs:277-288 | a dial adds a pending session unless the id is pending already |
| Sessions.Server.AttachForward | p9cpu/crates/libp9cpu/src/server.rs:313-397 | a forward attaches to a pending session |
| Sessions.Server.Start | p9cpu/crates/libp9cpu/src/server.rs:133-227 | a start takes the pending entry in every case, runs the session, or returns the error of the first check that fails |
| Sessions.Server.Wait | p9cpu/crates/libp9cpu/src/server.rs:290-306 | after a wait the session is gone, whatever became of the child |
| Sessions.EveryDialIsAccountedFor | p9cpu/crates/libp9cpu/src/server.rs:133-306 | in every interleaving and for every id: dialled is pending or taken; taken is being started, failed or started; started is running or removed |
| Sessions.DialsArePendingOrTaken | p9cpu/crates/libp9cpu/src/server.rs:133-288 | successful dials are the pending entry and the starts that consumed it |
| Sessions.FreshIdIsInOnePlace | p9cpu/crates/libp9cpu/src/server.rs:133-306 | an id dialled at most once is in at most one of these places and is started at most once |
| Sessions.FreshMapsAreDisjoint | p9cpu/crates/libp9cpu/src/server.rs:133-306 | with ids that are not dialled twice, no id is ever pending and running at once |
| Sessions.FreshStartIsNoDuplicate | p9cpu/crates/libp9cpu/src/server.rs:138-140 | with a fresh id, a start never finds the id in use |
| Sessions.ForwardsBetweenDialAndStart | p9cpu/crates/libp9cpu/src/server.rs:313-314 | a forward attaches if and only if there is one more dial than starts that took it |
| Sessions.RemovedNeverReturns | p9cpu/crates/libp9cpu/src/server.rs:303 | once a fresh id is removed, it is never pending, being started or running again |
| Sessions.WaitEndsSession | p9cpu/crates/libp9cpu/src/server.rs:290-306 | in every run, when a wait ends, some session was started under its id, as many were removed as started, and none is in the map |
| Sessions.WaitEndsForGood | p9cpu/crates/libp9cpu/src/server.rs:290-306 | with a fresh id, it is never pending, being started or running after a wait for it ended |
| Sessions.WaitRemovesItsOwn | p9cpu/crates/libp9cpu/src/server.rs:290-306 | the session that a wait removes is the one it found, running all the time in between, if and only if no other wait for the id ended in between |
| Sessions.LateWaitRemovesAnother | p9cpu/crates/libp9cpu/src/server.rs:290-306 | a run in which the second of two waits for an id ends after the id was dialled and started again, and removes the new session |
| Sessions.EveryPortIsForwarded | p9cpu/crates/libp9cpu/src/server.rs:141-146 | the port of a running session is one that a forward attached to its id |
| SessionPorts.PendingPorts | p9cpu/crates/libp9cpu/src/server.rs:313-396 | in every run a pending session has the port of the last forward since it was dialled |
| SessionPorts.StartsWithLastPort | p9cpu/crates/libp9cpu/src/server.rs:133-227 | in every run a start that succeeds runs the session with that port, and it succeeds if and only if the id is not running, the launch works, and a port that is needed is there |
| SessionPorts.DialAndForward | p9cpu/crates/libp9cpu/src/server.rs:277-288 | a dial makes a session pending without a port unless one is, and a forward gives a pending session its port; nothing else changes |
| Sessions.DuplicateExactly | p9cpu/crates/libp9cpu/src/server.rs:138-140 | a start fails as a duplicate if and only if a session of its id was started and not yet removed |
| Sessions.PendingAndRunningExactly | p9cpu/crates/libp9cpu/src/server.rs:133-306 | an id is pending and running at once if and only if a dial of it was not taken and a session of it was started and not removed |
| Sessions.ReusedIdIsLost | p9cpu/crates/libp9cpu/src/server.rs:134-140 | a run from the start of the server in which an id is dialled and started twice, and the second dial is lost |
| Select.Required | ds/ds.go:58-112 | the loop over the keys, in any order, decides whether all of them are satisfied |
| Select.BoundsAreInclusive | ds/ds.go:87-96 | both bounds are inclusive: a number meets both exactly if it is the bound |
| Queries.BoundsMean | ds/ds.go:64-96 | "<" and ">" before a number: met exactly by the numbers at most and at least that one, and by no other value |
| Queries.BadBoundsMean | ds/ds.go:64-96 | a bound that is no number is met by nothing |
| Queries.OthersMean | ds/ds.go:61-106 | "*" is met by all, "!" by all with another value, and a list by the values on it; a missing key has an empty value |
| Queries.MatchMeans | ds/ds.go:315-327 | a candidate matches if and only if it meets all keys but "sort" and has the name asked for |
| Queries.NumbersSort | ds/ds.go:239-287 | "<" before a sort key, or the key alone, puts the smaller number first, ">" the larger |
| Queries.LengthsSort | ds/ds.go:225-238 | "=" puts the value with more bytes first, "!" the one with fewer |
| Queries.OperatorAlone | ds/ds.go:276-284 | an operator without a name makes the sort keys unusable |
| Queries.FirstKeyDecides | ds/ds.go:201-220 | of two keys the first decides, unless it puts neither first |
| Select.LessIsStrictWeakOrder | ds/ds.go:201-220 | the comparison by several keys is a strict weak order on candidates that have a number for every numeric key |
| Select.OneKeyExactly | ds/ds.go:239-261 | with one numeric key it is a strict weak order if and only if every entry has a number or no two numbers differ |
| Lookup.MultiSorter.IsLess | ds/ds.go:201-220 | the loop over the keys decides that comparison |
| Lookup.MultiSorter.Swap | ds/ds.go:191-193 | two entries change places, no other moves |
| Lookup.LexIsLess | ds/ds.go:201-263 | the comparisons made for the keys decide as the comparison by the keys does |
| Lookup.MultiSorter.Insert | ds/ds.go:187-220 | one round of the sort, by `Less` and `Swap`: a permutation with one more entry in order |
| Lookup.MultiSorter.Sort | ds/ds.go:288 | the sort permutes the entries, and orders them wherever the comparison is a strict weak order on them |
| Lookup.MakeKeys | ds/ds.go:274-287 | the sort keys, or none if one has an operator but no name |
| Lookup.SortEntries | ds/ds.go:266-289 | without usable sort keys nothing moves; otherwise the entries are sorted |
| Lookup.MatchingIsExact | ds/ds.go:315-327 | what is collected is everything that was found and matches, as often as it was found |
| Lookup.Collect | ds/ds.go:315-327 | the callback collects the matching entries |
| Lookup.Front | ds/ds.go:344-350 | the first n, or one if n is zero |
| Lookup.Choose | ds/ds.go:304-352 | an error if and only if nothing matches; otherwise min(max(n, 1), matches) entries, the front of an arrangement of all that match |
| Lookup.ChosenMatch | ds/ds.go:315-351 | every returned entry was found and satisfies the query |
| Lookup.NoneLeftOutIsLess | ds/ds.go:342-351 | no entry that is left out comes before one that is returned |
| FsTab.ParseNamespace | p9cpu/crates/libp9cpu/src/lib.rs:43-87 | the loop with its set of targets gives the table of the reference |
| FsTab.PartIs | p9cpu/crates/libp9cpu/src/lib.rs:58-67 | what a part says: target and source around one equals sign, or one name for both |
| FsTab.PairsAreParts | p9cpu/crates/libp9cpu/src/lib.rs:58-67 | every pair without an equals sign can be written as a part |
| FsTab.FirstsAre | p9cpu/crates/libp9cpu/src/lib.rs:57-73 | the places of the binds are exactly the first good occurrences of their targets, in order |
| FsTab.TargetsAreDistinct | p9cpu/crates/libp9cpu/src/lib.rs:68-72 | the targets are pairwise distinct |
| FsTab.NoTargetIsMissing | p9cpu/crates/libp9cpu/src/lib.rs:57-81 | the target of every good part is in the table, from its first good occurrence |
| FsTab.TableIs | p9cpu/crates/libp9cpu/src/lib.rs:43-87 | the table is empty exactly if no part is good, or begins with the 9P entry and goes on with those binds |
| FsTab.TableSays | p9cpu/crates/libp9cpu/src/lib.rs:43-87 | the words of the table: the place of the 9P mount first, then for each target a bind of its source below it |
| FsTab.RewriteTable | p9cpu/crates/libp9cpu/src/server.rs:158-171 | the loop over the table |
| FsTab.RewritesFirst | p9cpu/crates/libp9cpu/src/server.rs:162-170 | at most one entry changes: the first that is a 9P mount at the place of the mount |
| FsTab.HeadIsRewritten | p9cpu/crates/libp9cpu/src/server.rs:158-171 | with entries of the user after it, the table of a namespace changes in exactly its head |
| FsTab.HeadSays | p9cpu/crates/libp9cpu/src/server.rs:158-171 | after a start the first entry has the local address and the decimal number of the port |
| TextLaws.DecimalIs | p9cpu/crates/libp9cpu/src/server.rs:167 | a number is printed in decimal digits that say it |
| Text.JoinSplit | client/fns.go:294 | joining what was split gives the text back |
| Text.SplitJoin | client/fns.go:294 | splitting what was joined gives the parts back |
| TextLaws.CleanIsIdempotent | client/cpio9p.go:169 | cleaning a path keeps its elements, and cleaning it again changes nothing |
| TextLaws.RelLeads | client/cpio9p.go:261-263 | the relative path from one path to another, joined to the first, is the second, cleaned |
| Text.ReduceAppend | client/cpio9p.go:169 | cleaning a path works element by element |

## Left out

- Scheduling below lock sections, the fairness of the locks, cancellation, and the network: the models of
  concurrent code take lock sections as steps and allow every order of them.
- The state of files behind fids: filesystem results are a fixed oracle for each request, so two requests
  that interact only through the files themselves are not compared.
- The framing of messages by length, and what `dispatch` does when a frame cannot be read or decoded: it
  ends the connection.
- Failures of the writer during encoding, and the memory that large length prefixes make the decoder
  allocate before it finds the stream too short.
- Strings in `Namespace`, `Quote`, `FsTab`, `Cpio` and `Select` are sequences of characters: Go strings
  that are not valid UTF-8 are not represented. The scanner's line limit counts their bytes in UTF-8.
- `path/filepath` is modelled by its documented lexical rules on Unix; `filepath.Rel` returns a cleaned
  path, as its documentation says.
- `filepath.EvalSymlinks` and the mounter are parameters: a map of names, and the numbers of the
  calls that fail.
  Flag words are sets of bits, and the table of option names is a parameter that is only asked to know
  "bind" where that matters.
- The words of the shell language are split at unquoted blanks; operators, expansions and comments
  are not part of this model.
- A query whose key has no value, or an empty one, makes the program panic; `Select.Required`,
  `Select.ParseKey` and their callers require that there is a first character.
- `strconv.ParseFloat` is a map from the strings it accepts; floats are compared, never computed with.
- `sort.Sort` is modelled by an insertion sort over the same comparison, which the standard library uses
  for short slices; the order of entries that compare equal is not promised by either.
- The browser's answers are a sequence, and the instance test compares with one full name.
- `Readdir` of the archive server with an offset: its offsets are record indices, not places in the list.
- Sizes wrap at 2^32 in the model of a page; the laws about whole directories ask that no sum of a
  page and one more entry can reach that limit, because the directory or the count is too small.
- The turns of the loop in `Forwarding` are given as a sequence in the order in which `select!` takes them;
  the wait for the first connection is not part of it.
- Relay.CopyTo: it collects the chunks it sends; waiting for room in the channel is part of the runs, not
  of the method.
- Sessions.Server.Start: opening terminals and pipes, launching the command and sending it its description
  are one step that may fail, after the port for it is bound.
- Command execution, terminals, signals, keys, ssh configuration, DNS-SD registration, the union file
  system, and the other file operations of the 9P servers, which pass their arguments on.
- Encoding of `Data`, strings and vectors longer than their prefix: modelled as the code's casts, which
  wrap; such values are outside the round trip by the condition of `Messages.RoundTrip`.
