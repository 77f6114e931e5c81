# A verified model of Android File Transfer for Linux

A Dafny 4.11 model of the parts of this repository where small stateful code has a clean meaning:
the MTP wire stack, the codecs under it, the FUSE caches, the media library, the command-line lexer
and the Jellyfin synchroniser. Each imperative part is a class or a method with a loop, proved
against a specification; what the code promises is then proved about the specification, for all
inputs, runs and reachable states.

`dafny verify dfyconfig.toml` checks everything.

## The parts

| files | what they model |
|---|---|
| Bytes, Sequences, Results, ObjectIds, Codec, MtpStrings | little-endian numbers, counted arrays, MTP strings (section 3.2.3 of MTP 1.1) to and from UTF-8 (section 3 of RFC 3629), the variable-width integer |
| ObjectStreams, Parsers, Framing, PipePacketer | streams, the two nested incremental parsers, the message-level reader, and why the one refines the other |
| UsbPackets, UsbDevice | bulk transfers as packet lists ended by a short packet (section 5.8.3 of USB 2.0), `WriteBulk` and `ReadBulk` |
| Transactions | requests, containers, sessions and whole runs of calls |
| PropertyLists | the property-list builders of the library, the parser, and what the device reads of the lists |
| FuseNames, FuseTree, FuseWrapper, BulkQuery | the name, attribute and directory caches of the FUSE layer and the bulk property query |
| FuseFiles, ObjectCache | file contents, sizes and partial reads; the whole-object cache |
| AlbumIndex, Albums, Playlists | artists, albums, tracks, importing in one session and the next; playlists and rebuilding them |
| Tokenizer | the flex lexer and the Python quoting it undoes |
| Importing, ToolRuns | batch imports with retries, seen from Python; the same with each run of the tool a session on the device |
| SyncState, Sync | the per-device state, a synchronisation run |

Every imperative file (all but Bytes, Sequences, Results, ObjectIds, Framing, UsbPackets, FuseNames, FuseTree and
AlbumIndex, which hold types and specifications) keeps the fields and loops of its source. Virtual calls through
stream pointers are datatypes with one case a class. FuseWrapper's methods are proved equal to the functions of
FuseTree, and these to a file system without caches.

## What is assumed of the environment

- Byte sources fill the buffer unless they are at their end, and sinks accept every byte. The source
  classes modelled here do.
- One bulk transfer carries bytes of one container. A response's parameters arrive in the transfer that
  completes its header; what happens otherwise is `Framing.ResponseReadWholeIffUnsplit`. A container of
  more than 4 GiB has all but its last transfer inside its first 4 GiB.
- A device does not use a transaction that has not begun yet; what it owes to earlier ones may come late, in
  whole containers, between and inside the answers to later calls. Calls do not overlap (the session holds a
  mutex).
- MTP operations succeed once they are started, except where a failure is part of the model: reads that
  starve or meet a malformed length, refused and unsupported operations, individual property queries,
  32-bit partial reads, naming an object that is gone, names and property lists the device refuses, imports that
  break off after the track object is made, playlists on devices without them, and every failure of the
  command-line tool seen from Python.
- A device keeps of a string it was sent what the host will read back: what the units on the wire stand for, or
  it refuses it. A string whose count is wrong it may keep as anything that can be read (FUSE) or refuses with
  the property list it is in (library).
- For the FUSE caches: ids are new, names in a directory of the device differ, nothing else changes the device,
  and the kernel creates a name only where it found none.
- The library's device makes each object of the entries it reads from the list it is sent. It lists albums and
  playlists in the order they were made, and takes the artist of an album or track sent by id from the artist
  object of that id, refusing the list if there is none.
- Property list replies of a device may repeat, omit or add entries in any order but do not lie about the
  property asked for.
- What a run of the command-line tool does and prints about a file is a parameter of Importing and Sync: any
  list of runs. In ToolRuns it is what a session on the device does; how far a run gets, whether it hangs, and
  which harmless lines are taken for errors stay parameters. Lines that speak of a file are told by its path.

## What turned out to have a condition

Each of these is an if-and-only-if, or comes with a concrete counterexample; the members are named.

- `Write64` takes a 32-bit value and shifts it by 16: it inverts `Read64` below 65536 only
  (Codec.Write64Inverse).
- The transaction counter wraps to 0, and transaction 0 turns the filter off: a stale response is then taken
  for the answer (Framing.FilterNeedsNonzero).
- Reading stops at a response's header, so a response split after it loses its parameters
  (Framing.ResponseReadWholeIffUnsplit).
- Without the zero-packet capability a bulk write whose length is a multiple of the packet size but not of
  the block size runs into the next one (UsbPackets.BulkWriteIsOneTransfer). So the two ways of sending data
  are not interchangeable for such a device (Transactions.ModeArrives).
- A four-byte UTF-8 sequence takes two turns of the writer: two question marks, the second of which swallows up to
  two bytes behind the sequence. The count in front is right only if these turns happen to be as many as the
  bytes that do not continue a sequence; otherwise the string ends too early or too late for its reader, and
  inside a message all that follows is displaced (MtpStrings.FourBytes, MtpStrings.FourBytesAndOne,
  MtpStrings.WellCountedIff, MtpStrings.ReadsFromItsBytesIff, PropertyLists.BuiltListReads). U+0000 is skipped
  on reading (MtpStrings.WriteThenRead, MtpStrings.ReadThenWrite).
- Quoting and lexing lose empty arguments (Tokenizer.QuotingRoundTrip).
- A rename caches the name as it was given. One that does not survive the way to the device and back, a file
  name in Latin-1 for example, stays wrong in the cache (FuseNames.RenameAgreesIff, FuseNames.RenameCanChangeName).
- Nor does it ask whether a directory it replaces is empty. If that was listed and is not, its names stay in
  the cache although the device has dropped them (FuseNames.RenameAgreesIff, FuseNames.RenameCanDisagree).
- A rename that fails has already deleted its target; renaming a name to itself is one, and deletes the object.
  A cached listing still shows it (FuseNames.BrokenRenameAgreesIff, FuseTree.RenameLoadedAgreesIff).
- The whole-object cache is not told about writes and size changes. Reads stay right after one exactly if its
  object is not cached, or if it only cuts the file or writes what was there
  (ObjectCache.ChangeKeepsReadsRightIff, ObjectCache.StaleByte).
- Track numbers are sent in 16 bits but remembered whole, and names are remembered as they were sent. A track
  is found again in a later session exactly if its number fits and artist, album and title survive the way to
  the device and back; otherwise it is imported again (AlbumIndex.LookupIsFaithfulIff, AlbumIndex.FoundAgainIff,
  Albums.Library.ImportNextSession).
- Of the tracks staged under one file name a run uploads and records the last; the others follow in later
  runs, one a run (Sync.RunsNeeded).
- A track whose preparation fails after its file was written may have overwritten another's. The other is then
  recorded although the first one's audio went to the device (Sync.RecordsExactlyIff).
- A playlist whose last track disappears is not cleared on the device (Importing.SettledRightIff).
- A failed playlist rebuild after an upload does not show in the exit code of the run (Sync.Syncer.Run).
- A batch that breaks is retried file by file, each in a new session. What its run had imported is skipped
  exactly if it is found by then: a file with a wide number or a name that does not survive is transferred a
  second time, and so is one whose command broke off (ToolRuns.RetriedSkipsIff, ToolRuns.NothingTwiceIff,
  Albums.FailedIsNotFound).
- A playlist whose name does not survive, or is empty, is made anew at every synchronisation
  (Playlists.RebuildNextSession, Importing.BuiltAnew).

## Model

| member | source | states |
|---|---|---|
| PipePacketer.Read | mtp/ptp/PipePacketer.cpp:206-235 | for any packets in the pipe the outcome and what the sink gains are those of the specification reader, the whole blocks of a transfer that never ends included; an answer leaves the transfers behind it, starving leaves nothing; it always ends |
| PipePacketer.ReadMessage | mtp/ptp/PipePacketer.cpp:92-93 | one bulk read into the parsers, terminated or not: the error, and finished, answered, delivered bytes and response, are functions of the container bytes so far; a malformed length shows before anything reaches the caller's sink |
| Framing.ReadMeaning | mtp/ptp/PipePacketer.cpp:206-235 | the whole read path, told from the containers: for transfers that carry any list of them, cut anywhere, a read for t returns the payloads, one after the other, of the containers of kind 2 that are t's, or any if t is 0, before the first of kind 3 that is, then that one's code and payload, and leaves the transfers after it |
| Framing.ReadWithoutAnswer | mtp/ptp/PipePacketer.cpp:206-235 | without such a container of kind 3 it starves, with all those payloads collected |
| PipePacketer.WantedOfMessages | mtp/ptp/PipePacketer.cpp:206-235 | so what PipePacketer.Read is proved to return is this, for packets that carry containers |
| Framing.WireForm | mtp/ptp/Container.h:42-58 | the bytes of a container: four of its length, saturating, two of the kind, two of the code, four of the transaction, then the payload |
| Framing.MalformedIff | mtp/ptp/PipePacketer.cpp:68-76 | the length is malformed if and only if its four bytes say 0 to 3 |
| Framing.ServeFirst | mtp/ptp/PipePacketer.cpp:213-232 | the message-level reader is that description: data before the first answer, the answer, the rest untouched |
| Framing.ServeNone | mtp/ptp/PipePacketer.cpp:213-232 | with no answer in the queue everything is consumed and its data delivered |
| Framing.Reassembly | mtp/ptp/PipePacketer.cpp:126-202 | every cutting of containers into transfers that keeps a response with its header reads like the containers themselves |
| Framing.ContainerRead | mtp/ptp/PipePacketer.cpp:78-87 | the transfers of one container read as the container, from nothing received |
| Framing.ResponseReadWholeIffUnsplit | mtp/ptp/PipePacketer.cpp:162-166 | a response is read whole if and only if the transfer that completes its header is its last: the loop stops as soon as the header says response |
| Framing.ForeignIgnored | mtp/ptp/PipePacketer.cpp:149-155 | containers of other transactions, events and commands, in any number, change nothing when t is not 0 |
| Framing.OnlyOwnServed | mtp/ptp/PipePacketer.cpp:149-155 | wherever containers of other transactions come in between, a read for t, not 0, collects and ends as if t's own were alone in the pipe |
| Framing.FilterNeedsNonzero | mtp/ptp/PipePacketer.cpp:149 | a stale response goes unnoticed by every later read if and only if the transaction is not 0 |
| Framing.HeaderRoundTrip | mtp/ptp/PipePacketer.cpp:146-148 | the eight header bytes decode to the type, code and transaction that were encoded |
| Parsers.HeaderParser.Write | mtp/ptp/PipePacketer.cpp:192-201 | after any chunk the header, the chosen stream, the flags, the code and both sinks are functions of all bytes fed, a chunk ending exactly at byte 8 included; the whole chunk is consumed |
| Parsers.HeaderParser.OnStream1Exhausted | mtp/ptp/PipePacketer.cpp:144-171 | the routing decision for every header: a transaction of 0 or its own takes kind 2 to the data sink and kind 3, with its code, to the response; all else is dropped |
| Parsers.MessageParser.Write | mtp/ptp/PipePacketer.cpp:78-87 | fails exactly when the completed length is below 4, before anything reaches the sink; else the state is that of all bytes fed |
| Parsers.MessageParser.JoinedWrite | mtp/ptp/JoinedObjectStream.h:93-111 | switches streams when the first comes up short, and only then; the rest of the chunk goes to the second |
| Parsers.MessageParser.Observed | mtp/ptp/PipePacketer.cpp:65-66 | finished, answered, code, response and sink contents follow from the bytes fed alone |
| Parsers.Feed | mtp/ptp/PipePacketer.cpp:45-88 | chunking invariance: any list of chunks, empty ones included, has the effect of their concatenation |
| ObjectStreams.ByteSource.Read | mtp/ptp/ByteArrayObjectStream.h:44-51 | fills the buffer as far as the data goes and advances by that |
| ObjectStreams.JoinedSource.Read | mtp/ptp/JoinedObjectStream.h:39-56 | reads as one stream that is the two end to end, across the switch |
| ObjectStreams.FixedSizeSink.Write | mtp/ptp/ByteArrayObjectStream.h:88-95 | takes what fits, in order |
| UsbDevice.WriteBulk | mtp/backend/linux/usb/Device.cpp:304-326 | the packets sent are those of one bulk write of everything the source has, whatever its length |
| UsbDevice.WriteBlock | mtp/backend/linux/usb/Device.cpp:313-323 | one block advances the write of the whole, with the zero packet asked for exactly on a short block |
| UsbDevice.ReadBulk | mtp/backend/linux/usb/Device.cpp:328-347 | receives exactly the first transfer, whatever the block size, and leaves the packets after it; a transfer that never ends starves it with its whole blocks in the sink; a malformed length shows before anything reaches the caller's sink |
| UsbDevice.BulkPipe.SubmitIn | mtp/backend/linux/usb/Device.cpp:274-302 | one block takes whole packets until it is full or a short packet arrives |
| UsbPackets.TransferSizeFits | mtp/backend/linux/usb/Device.cpp:142-147 | the buffer is a positive whole number of packets for every packet size, at most 4096 bytes or one packet, and no further packet would fit |
| UsbPackets.TransfersRoundTrip | mtp/backend/linux/usb/Device.cpp:304-347 | transfers cut into full packets and one short or empty packet each come back as the same transfers, with nothing left in the pipe |
| UsbPackets.BulkWriteIsOneTransfer | mtp/backend/linux/usb/Device.cpp:315-325 | a bulk write arrives as the one transfer it was if and only if zero packets are announced, or its length is a multiple of the block size, or not one of the packet size; otherwise it and the next arrive as one |
| UsbPackets.BlockReadMeaning | mtp/backend/linux/usb/Device.cpp:333-346 | a block is filled from inside the transfer or ends with it, never beyond |
| UsbPackets.BlocksAreWhole | mtp/backend/linux/usb/Device.cpp:333-346 | what is handed on of a transfer that never ends is its first bytes, the largest whole number of blocks |
| UsbPackets.TransfersAppend | mtp/backend/linux/usb/Device.cpp:328-347 | packets arriving behind finished transfers are read after them |
| Transactions.MakeRequest | mtp/ptp/OperationRequest.h:30-102 | opcode, transaction, then the parameters, little endian |
| Transactions.CommandContainerIsMessage | mtp/ptp/OperationRequest.h:30-102 | the command that goes out is the container of kind 1 with the opcode and the transaction, and the i-th parameter is the number at byte 4 i of its payload, of 4 bytes a parameter |
| Transactions.MakeContainer | mtp/ptp/Container.h:42-58 | length of everything including what follows separately, type, request |
| Transactions.WriteSize | mtp/ptp/Container.h:35-40 | the length saturates at 32 bits |
| Transactions.DataContainerIsMessage | mtp/ptp/Container.h:51-58 | container and payload together are the encoding of one data message; the length counts every byte, saturating |
| Transactions.InlineContainerIsMessage | mtp/ptp/Session.cpp:314-317 | so is the container with the payload appended to the request |
| Transactions.SameBytes | mtp/ptp/Session.cpp:150-160 | both bulk modes put the same bytes on the pipe |
| Transactions.ModesReadTheSame | mtp/ptp/Session.cpp:295-342 | a receiver built from the same parsers reads the transfers of both modes alike, an empty payload's empty second transfer included |
| Transactions.WritesArrive | mtp/ptp/Session.cpp:150-160 | consecutive bulk writes arrive as the transfers they were, and what follows them too, if and only if each of them ends in a short packet |
| Transactions.ModeArrives | mtp/ptp/Session.cpp:328-342 | a data message arrives as its mode sent it if and only if the device takes zero packets, or its one transfer ends short, or its header and its payload both do: without zero packets the modes differ |
| Transactions.Session.SendData | mtp/ptp/Session.cpp:328-342 | the data phase sends the transfers of one data message in the mode of the session |
| Transactions.Session.SendInline | mtp/ptp/Session.cpp:295-319 | so does the legacy SendObjectInfo branch |
| Transactions.Session.SendRequest | mtp/ptp/Session.cpp:148-160 | the command with its parameters goes out, then, if there is data, the data container of the same opcode and transaction |
| Transactions.Session.Begin | mtp/ptp/Session.cpp:81-87 | the transaction gets the counter's value, which then moves on and wraps at 32 bits |
| Transactions.CounterWraps | mtp/ptp/Session.cpp:81-87 | the counter moves on by one modulo 2^32 |
| Transactions.Session.Get | mtp/ptp/Session.cpp:116-126 | for any packets in the pipe: the read's data if the response is accepted, the refusal with its code, or how the read failed |
| Transactions.Session.RunTransaction | mtp/ptp/Session.cpp:136-162 | an unsupported operation touches nothing; otherwise the bulk writes that go out carry the command container with the opcode, the transaction and every parameter, then the data container, and the result is that of reading whatever is in the pipe; no transaction stays current |
| Transactions.Run | mtp/ptp/Session.cpp:45-55 | no cross-talk: over any run of calls until the counter wraps, refused ones included, each call returns what its own containers alone would make it return, whatever earlier and failed calls left in the pipe and whatever still comes for them in the middle of later ones |
| Transactions.AloneMeaning | mtp/ptp/Session.cpp:116-126 | what that is, told from the containers: the data before the first response of the transaction and its parameters, if its code is 0x2001 or 0x201e, else the refusal with the code; without a response a starved read |
| Transactions.RunOne | mtp/ptp/Session.cpp:136-162 | one call of such a run, and that what it leaves is again only stale containers |
| Codec.OutputStream.Write16 | mtp/ptp/OutputStream.h:46-47 | two bytes, little endian |
| Codec.OutputStream.Write32 | mtp/ptp/OutputStream.h:49-50 | four bytes, little endian |
| Codec.OutputStream.Write64 | mtp/ptp/OutputStream.h:52-53 | eight bytes: the value, and the value shifted right by 16 |
| Codec.Write64Inverse | mtp/ptp/OutputStream.h:52-53 | Write64 is undone by Read64 if and only if the value is below 65536 |
| Codec.InputStream.Read8 | mtp/ptp/InputStream.h:49-50 | the byte, or the exception of reading past the end |
| Codec.InputStream.Read16 | mtp/ptp/InputStream.h:52-57 | the number at the position or the exception |
| Codec.InputStream.Read32 | mtp/ptp/InputStream.h:58-63 | the number at the position or the exception |
| Codec.InputStream.Read64 | mtp/ptp/InputStream.h:65-70 | the number at the position or the exception |
| Codec.OutputStream.WriteArray32 | mtp/ptp/OutputStream.h:115-121 | a count and the elements |
| Codec.InputStream.ReadArray32 | mtp/ptp/InputStream.h:107-121 | the counted elements, and the position behind them; nothing at the end of the stream is an empty array; a short one fails |
| Codec.Array32FailsIff | mtp/ptp/InputStream.h:107-121 | nothing is an empty array; any other fails exactly if its count or an element is not all there |
| Codec.Array32RoundTrip | mtp/ptp/InputStream.h:107-121 | a counted array survives the trip, whatever follows it, and exactly its bytes are consumed |
| Codec.PackInteger | mtp/ptp/Session.cpp:434-449 | 4 bytes below 2^32 and 8 from there on, holding the value |
| Codec.ReadSingleInteger | mtp/ptp/InputStream.h:156-168 | the value for lengths 1, 2, 4 and 8, an error for all others |
| Codec.IntegerRoundTrip | mtp/ptp/Session.cpp:434-449 | every 64-bit value reads back as it was set |
| MtpStrings.WriteString | mtp/ptp/OutputStream.h:73-113 | appends the encoding, or throws and appends nothing when 1 + the count exceeds 255 |
| MtpStrings.ComputeUtf8Length | mtp/ptp/OutputStream.h:55-64 | counts the bytes that do not continue a sequence |
| MtpStrings.Utf8LengthCounts | mtp/ptp/OutputStream.h:55-64 | as many as there are positions with such a byte |
| MtpStrings.ConvertAt | mtp/ptp/OutputStream.h:86-110 | one turn of the writer: the unit and the position after it |
| MtpStrings.UnitsByLead | mtp/ptp/OutputStream.h:86-110 | the unit for each kind of lead byte and where the next one starts, bad lead bytes and truncated sequences included |
| MtpStrings.ReadString | mtp/ptp/InputStream.h:78-105 | the decoded string and the position after it, or the exception |
| MtpStrings.AppendUnit | mtp/ptp/InputStream.h:85-101 | one turn of the reader: one to three bytes a unit, none for zero |
| MtpStrings.WriteThenRead | mtp/ptp/OutputStream.h:73-113 | a string survives writing then reading, consuming exactly what was written, if and only if it is NUL-free shortest-form UTF-8 of one- to three-byte sequences with at most 254 characters |
| MtpStrings.EncodePortable | mtp/ptp/OutputStream.h:73-113 | the same anywhere inside a message |
| MtpStrings.ReadThenWrite | mtp/ptp/InputStream.h:78-105 | bytes survive reading then writing if and only if the units end in one zero, hold no other and are not a lone zero |
| MtpStrings.RecodedIff | mtp/ptp/InputStream.h:78-105 | what is read of a string that was sent is that string if and only if it is NUL-free shortest-form UTF-8 of one- to three-byte sequences; what is read survives every further trip |
| MtpStrings.WellCountedIff | mtp/ptp/OutputStream.h:73-113 | the count in front is that of the units and the terminator if and only if the writer takes one turn for each byte that does not continue a sequence |
| MtpStrings.ReadsFromItsBytesIff | mtp/ptp/InputStream.h:78-105 | inside a message a string is read from exactly its own bytes if and only if that count is right, and then as what its units stand for; otherwise the read fails or all that follows is displaced |
| MtpStrings.FourBytes | mtp/ptp/OutputStream.h:84-110 | a four-byte sequence alone becomes two question marks under a count of two, with the terminator not counted |
| MtpStrings.FourBytesAndOne | mtp/ptp/OutputStream.h:84-110 | with one byte behind it, which is lost, the count is right: what was seven bytes reads back as three |
| MtpStrings.StoredAsSentIff | mtp/ptp/OutputStream.h:73-113 | a device that keeps of a string what can be read of it holds what was sent if and only if that is portable |
| MtpStrings.DecodedIsWellFormed | mtp/ptp/InputStream.h:81-105 | whatever the units, the reader makes NUL-free shortest-form UTF-8 |
| PropertyLists.Parse | mtp/ptp/ObjectPropertyListParser.h:84-102 | the entries given to the callback, also before an exception, and the position or the exception, are those of the list format |
| PropertyLists.ReadValue | mtp/ptp/ObjectPropertyListParser.h:34-75 | 1, 1, 2, 2, 4, 4, 8 and 8 bytes for the integer types 1 to 8, strings of type 0xffff only for the string parser, every other type refused |
| PropertyLists.ListRoundTrip | mtp/ptp/ObjectPropertyListParser.h:84-102 | parsing an encoded list of numbers in range and well-counted strings hands over exactly its entries as they read back, up to the first of a type the parser is not made for, and ends at the last byte if there is none |
| PropertyLists.BuiltListReads | mtp/ptp/ObjectPropertyListParser.h:74-102 | of all lists that can be built: the declared count is the number of entries; a parse by data type gives exactly the intended list, to its last byte, if and only if every string is portable, and a string parse if besides there is no number; with strings that are only well counted just these are changed |
| PropertyLists.HeaderBytes | mtp/metadata/Library.cpp:223-225 | in front of each value four zero bytes, the property code and the data type |
| PropertyLists.CreateFolderList | mtp/ptp/Session.cpp:195-203 | the list of a new folder: read back by data type, to its last byte, it is one entry 0xdc07 with the name |
| PropertyLists.CreateArtistList | mtp/metadata/Library.cpp:216-231 | the bytes are the encoding of the artist list, or the string error; read back they give one name 0xdc44 and one file name 0xdc07, the name with ".art" |
| PropertyLists.CreateAlbumList | mtp/metadata/Library.cpp:258-295 | the same for albums: name, file name "artist--name.alb", the artist by id 0xdab9 or by name 0xdc46, the date 0xdc47 exactly if there is a year and the device has it |
| PropertyLists.CreateTrackList | mtp/metadata/Library.cpp:337-382 | the same for tracks: name, file name, artist, the number 0xdc8b modulo 65536 exactly if it is not zero, the genre 0xdc8c exactly if it is not empty |
| PropertyLists.AlbumSays | mtp/metadata/Library.cpp:258-295 | an album list is read whole if its strings are counted right: for every artist support, year and date |
| PropertyLists.TrackSays | mtp/metadata/Library.cpp:337-382 | so is a track list: for every artist support, number and genre |
| PropertyLists.CreatePlaylistList | mtp/metadata/Library.cpp:474-490 | the same for playlists: the name, and the file name with ".pl" exactly if the device has file names |
| FuseNames.InodesDistinct | fuse/fuse.cpp:101-108 | an object's inode is its id and a million, gives back the id and is neither a storage's, 2 to a million, nor the root's, 1, the null id aside |
| FuseNames.PopulateAgrees | fuse/fuse.cpp:251-257 | loading a directory keeps the caches right and loads exactly the device's names |
| FuseNames.KindIsRight | fuse/fuse.cpp:152-192 | with caches that agree with the device the kind found for an inode is the device's, and none for an object that neither has |
| FuseNames.ReadDirAgrees | fuse/fuse.cpp:501-528 | so does listing it |
| FuseNames.CreateAgrees | fuse/fuse.cpp:338-372 | creating an object keeps the caches right: they take the name the device gives back |
| FuseNames.UnlinkAgrees | fuse/fuse.cpp:702-729 | removing a name keeps them right when what goes shows no cached names |
| FuseNames.RenameAgreesIff | fuse/fuse.cpp:734-771 | a rename to another name keeps the caches right if and only if the new name survives the way to the device and back and no populated directory that the replaced target takes with it shows any names |
| FuseNames.RenameCanDisagree | fuse/fuse.cpp:755-761 | so renaming one directory over another that was listed and is not empty leaves names the device no longer has |
| FuseNames.RenameCanChangeName | fuse/fuse.cpp:764-767 | renaming to the byte 0xff leaves that in the cache where the device has a question mark |
| FuseNames.BrokenRenameAgreesIff | fuse/fuse.cpp:751-767 | a rename whose new name cannot be sent, is refused or was the object's own has deleted its target; the caches stay right if and only if the directory was not listed and nothing that goes with the target shows names |
| FuseTree.HandleRefines | fuse/fuse.cpp:483-538 | each request, asking for attributes included, keeps the caches right, and its reply and effect on the device are those of a file system without caches; `..` of a listing is the inode the directory's own object is in, 1 for a storage |
| FuseTree.RenameLoadedAgreesIff | fuse/fuse.cpp:743-770 | the condition for every rename inside a directory, succeeding, failing or to its own name |
| FuseTree.RunRefines | fuse/fuse.cpp:693-771 | over every run of attribute requests, lookups, listings, creations, removals and renames that meet that condition the caches agree with the device and every reply is the uncached one |
| FuseTree.RemoveRefines | fuse/fuse.cpp:702-729 | a name goes if its object has no children, else the directory is reported not empty |
| FuseWrapper.FuseWrapper.GetChildren | fuse/fuse.cpp:232-336 | the name map ends as the device's, by property lists or one by one, whatever order, duplicates or gaps the replies have |
| FuseWrapper.FuseWrapper.GetParentObject | fuse/fuse.cpp:392-408 | the inode that the device says the object is in; 1 for the root and for storages |
| FuseWrapper.FuseWrapper.GetObjectAttr | fuse/fuse.cpp:152-192 | the kind of an inode, loading its parent if unknown: where the caches agree with the device, that of the object on the device, and nothing for one that neither has |
| FuseWrapper.FuseWrapper.AnswerAttr | fuse/fuse.cpp:530-538 | the reply is the kind, or that there is no such object |
| FuseWrapper.FuseWrapper.Lookup | fuse/fuse.cpp:483-499 | the maps and the reply are those of the request |
| FuseWrapper.FuseWrapper.ReadDirectory | fuse/fuse.cpp:501-528 | the same: not a directory, an exception, or the listing of exactly the device's children in the order of the name map, behind `.` and the parent |
| FuseWrapper.FuseWrapper.CreateObject | fuse/fuse.cpp:338-372 | the same for create, mknod and mkdir, under the name the device gives back; an exception if it refuses the name or it cannot be sent |
| FuseWrapper.FuseWrapper.UnlinkName | fuse/fuse.cpp:702-732 | the same for unlink and rmdir |
| FuseWrapper.FuseWrapper.RenameEntry | fuse/fuse.cpp:743-770 | the same for every rename inside one directory, to another name or to its own, also one that fails half-way |
| FuseWrapper.FuseWrapper.Run | fuse/fuse.cpp:483-771 | any run of requests served by these methods ends with caches that agree with the device, and replies and device are those of the file system without caches |
| FuseWrapper.Mount | fuse/fuse.cpp:417-480 | the same from a fresh connection to any sound device |
| BulkQuery.Query | fuse/fuse.cpp:194-230 | each requested object gets one value, its first matching entry, else its individual answer unless that fails; no other object gets any |
| BulkQuery.FirstMatchMeaning | fuse/fuse.cpp:200-212 | that is the first entry of this object and this property, none exactly if there is no such entry |
| FuseFiles.File.Write | fuse/fuse.cpp:609-628 | the device holds the file with the data written at the offset, gaps zero, and size and blocks follow |
| FuseFiles.File.SetAttrSize | fuse/fuse.cpp:673-691 | the device holds the file cut or zero-extended to the size |
| FuseFiles.File.Read | mtp/ptp/Session.cpp:255-265 | the exact clipped slice; without the 64-bit operation it fails if and only if a nonempty read ends past 32 bits |
| FuseFiles.File.Run | fuse/fuse.cpp:609-691 | any run of writes and size changes leaves the abstract file on the device |
| FuseFiles.HistoryOfBytes | fuse/fuse.cpp:609-628 | every byte is that of the last write over it, zero if the file last grew past it, else the original |
| FuseFiles.BlocksCover | fuse/fuse.cpp:110-114 | the block count is the fewest 512-byte blocks that hold the file |
| FuseFiles.HalvesJoin | mtp/ptp/Session.cpp:350-358 | a 64-bit position sent as two words arrives as itself |
| ObjectCache.Cache.Read | fuse/fuse.cpp:567-601 | a hit gets what was cached and a miss the object; the entries follow by swap to front and eviction, within the size and each object once; while they are as on the device so are the bytes, and they stay so |
| ObjectCache.AfterMeaning | fuse/fuse.cpp:571-600 | the object read is in front; a hit changes places with the entry there; a miss moves the others back, and only the last leaves, from a full cache |
| ObjectCache.ChangeKeepsReadsRightIff | fuse/fuse.cpp:609-628 | after a write or size change every read is right if and only if its object is not cached, or all it does is to cut the file or to write what was there |
| ObjectCache.RightAboutIff | fuse/fuse.cpp:567-580 | reads of an object are right, whatever part is read, if and only if what the device holds begins what is cached |
| ObjectCache.Cache.ReadChangeRead | fuse/fuse.cpp:567-601 | a read after a read and a change gets the old bytes, and is right if and only if the new contents begin the old ones |
| ObjectCache.StaleByte | fuse/fuse.cpp:609-628 | one byte written over another: the next read gets the old one |
| Tokenizer.ChosenIsLongestFirst | cli/arg_lexer.l:33-46 | in both modes and at every text exactly one rule is the longest match and the first of its length, and it is the one chosen |
| Tokenizer.Tokenizer.Scan | cli/arg_lexer.l.cpp:1016-1023 | the match loop performs the chosen rules to the end of the text |
| Tokenizer.Tokenizer.Perform | cli/arg_lexer.l.cpp:1418-1492 | the action of every rule |
| Tokenizer.Tokenizer.constructor | cli/Tokenizer.cpp:26-44 | the tokens are those of the text, the last argument flushed, empty ones dropped |
| Tokenizer.TokensOfLine | cli/arg_lexer.l:33-46 | for every line of arguments, each made of characters, escaped spaces, other backslashes and quoted strings, which are made of characters, escaped control characters and other escaped characters: the tokens are the values, given by their characters, of the arguments that are not empty |
| Tokenizer.TokensOfCommandLine | tools/jellyfin-sync/jellyfin_sync/device.py:25-28 | so lexing words and strings quoted by the Python code gives their values, empty ones left out, whatever quotes, backslashes, spaces or line breaks they contain |
| Tokenizer.QuotingRoundTrip | tools/jellyfin-sync/jellyfin_sync/device.py:198-200 | nothing is lost if and only if no quoted string is empty |
| AlbumIndex.LookupIsFaithfulIff | mtp/metadata/Library.cpp:313-329 | the track index answers about a name as the device would, for every number, if and only if every entry under that name reads back and every entry the device has under that name is matched by one that is cached so |
| AlbumIndex.FoundAgainIff | mtp/metadata/Library.cpp:392-407 | a track known in one session is found in the next, which reads the device, if and only if its name survives the way to the device and back and its number fits 16 bits |
| AlbumIndex.FoundReads | mtp/metadata/Library.cpp:392-407 | no session finds a track whose artist, album or title does not survive that way or whose number does not fit |
| AlbumIndex.FindsStays | mtp/metadata/Library.cpp:151-186 | what a session opened now would find stays found whatever objects, albums and references are added: later albums never hide earlier ones |
| Albums.Library.Load | mtp/metadata/Library.cpp:151-186 | of the albums on the device, each filed under its artist, or the unknown one, and its name, the first under each, and nothing known of their tracks; every artist object has a record with the id of such an object |
| Albums.Library.GetOrCreate | mtp/metadata/Library.cpp:29-39 | a folder of that name in that place, as the device keeps it; a new one exactly if there was none, or an exception |
| Albums.Library.LoadRefs | mtp/metadata/Library.cpp:392-407 | once per album: the cached set and index are the device's references, names and numbers |
| Albums.Library.GetTrackId | mtp/metadata/Library.cpp:313-329 | the first entry with that name and number, or the null id |
| Albums.Library.AddTrack | mtp/metadata/Library.cpp:409-425 | the device's references grow by the track alone, for this album alone, and the cache with them |
| Albums.Library.CreateArtist | mtp/metadata/Library.cpp:207-239 | a new artist under its name, the unknown one for an empty name, with a folder of that name in the music folder and, if the device has artist objects, the id of one of that name; a record already there under that name stays; a name too long or refused is an exception that records nothing |
| Albums.Library.CreateAlbum | mtp/metadata/Library.cpp:250-308 | the device makes of the list it is sent an album object of this artist, name, file name and date; the album is recorded with no references under its artist and name, its folder inside the artist's; the next session finds it there if both read back; on an exception nothing is recorded or listed |
| Albums.Library.SendTrack | mtp/metadata/Library.cpp:331-390 | the device makes of the list it is sent one new track object in the album's folder with the artist, title, number, genre and file name of the file, as it keeps them |
| Albums.Library.ZuneImport | cli/Session.cpp:1250-1288 | a file whose track the album has is skipped and nothing changes; any other becomes one new object with its artist, title, number, genre and file name as the device keeps them, which the album alone gains, with the cover if there is one; either way the track is referred to by the album filed under the file's artist and album, whose object has these names; an exception leaves at most an object no album refers to, empty albums and the cover |
| Albums.Library.ImportAll | cli/Session.cpp:1233-1288 | files are imported up to the first exception and recorded, each under the id of a track of its title and number; in a session that knows only what it found on the device a file is skipped if and only if its track was there or came before; a later session finds what was imported only if it reads back, and if it does where no album was made under names that do not |
| Albums.RecordedFoundIff | mtp/metadata/Library.cpp:313-407 | what is recorded under an album is found by the next session if and only if artist, album, title and number read back |
| Albums.FailedIsNotFound | cli/Session.cpp:1278-1286 | what an import made before it failed, an object no album refers to, is found by no session |
| Albums.Library.ImportTwice | cli/Session.cpp:1271-1276 | a second import of the same files in a session leaves the device as the first left it |
| Albums.Library.ImportNextSession | cli/Session.cpp:1250-1288 | a second import in a later session skips all the first imported, leaving the device as it was, if and only if artist, album and title of each survive the way to the device and back and its number fits 16 bits |
| Playlists.CanonicalIsCanonical | mtp/metadata/Library.cpp:517-529 | adding ids one by one leaves each non-null id once, in the order of first occurrence |
| Playlists.CanonicalUnique | mtp/metadata/Library.cpp:517-529 | that description has one solution |
| Playlists.CanonicalIdempotent | mtp/metadata/Library.cpp:517-529 | rebuilding from the result changes nothing |
| Playlists.Library.AddToPlaylist | mtp/metadata/Library.cpp:517-529 | null ids and repetitions change nothing; otherwise cache and device both gain the id at the end |
| Playlists.Library.ClearPlaylist | mtp/metadata/Library.cpp:509-515 | cache and device both become empty |
| Playlists.Library.CreatePlaylist | mtp/metadata/Library.cpp:465-500 | the existing playlist, or a new empty one listed last under the name the device reads, or the exception: no playlists on this device, a name too long, or refused |
| Playlists.Library.Rebuild | cli/Session.cpp:1182-1204 | clear, then adds: whatever was there, cache and device end as the canonical list and no other playlist changes; nothing changes on an exception |
| Playlists.Library.Load | mtp/metadata/Library.cpp:427-457 | of the named playlists on the device the first under each name |
| Playlists.Library.RebuildTwice | tools/jellyfin-sync/jellyfin_sync/device.py:175-195 | doing it again in the session changes nothing |
| Playlists.RebuiltMeaning | tools/jellyfin-sync/jellyfin_sync/device.py:175-195 | after a rebuild in a session of its own the playlist is found with its tracks, if and only if its name is not empty and survives the way to the device and back; no other playlist changes |
| Playlists.RebuildNextSession | mtp/metadata/Library.cpp:470-500 | rebuilding again in a later session changes nothing for such a name and makes one more playlist for any other |
| Importing.Zune.ImportTracks | tools/jellyfin-sync/jellyfin_sync/device.py:107-156 | every path goes to one list, in order, by the run that decides about it: its batch's, or its own when the batch broke |
| Importing.Conserved | tools/jellyfin-sync/jellyfin_sync/device.py:107-156 | uploaded, skipped and failed partition the paths as a multiset, for every pattern of runs |
| Importing.DecidedBy | tools/jellyfin-sync/jellyfin_sync/device.py:119-136 | the run for the i-th file: batches have the given size, so it is in batch i / size; that batch's run decides, or if it broke the file's own, i % size runs later |
| Importing.ListsMeaning | tools/jellyfin-sync/jellyfin_sync/device.py:115-172 | the three lists, in order: failed is what timed out, alone ended badly or is spoken of as an error, each with that reason; the rest is skipped or uploaded as its run says |
| Importing.OnDeviceMeaning | tools/jellyfin-sync/jellyfin_sync/device.py:134-153 | a path is reported uploaded or skipped if and only if a run that decided about it says so |
| Importing.IdsMeaning | tools/jellyfin-sync/jellyfin_sync/device.py:146-148 | a path has an object id if and only if such a run that ended well reported one |
| Importing.LastIdStays | tools/jellyfin-sync/jellyfin_sync/device.py:146-148 | and it is the last one reported |
| Importing.BatchingIsInvisible | tools/jellyfin-sync/jellyfin_sync/device.py:125-144 | with a tool that stops at files it cannot import exactly those fail, whatever the batch size |
| Importing.Zune.ImportOne | tools/jellyfin-sync/jellyfin_sync/device.py:157-172 | one file alone: its text is not searched for errors |
| Importing.Zune.BuildPlaylist | tools/jellyfin-sync/jellyfin_sync/device.py:182-195 | a playlist without ids has no run; any other has one, whose timeout or last line is the error |
| Importing.Zune.BuildPlaylists | tools/jellyfin-sync/jellyfin_sync/device.py:175-195 | with names that read back every playlist with ids holds their canonical list or is reported; a playlist without ids and all others are left alone |
| Importing.BuiltAnew | tools/jellyfin-sync/jellyfin_sync/device.py:175-195 | a name that does not read back makes another playlist, and leaves all others alone, each time its run ends well |
| Importing.SettledRightIff | tools/jellyfin-sync/jellyfin_sync/device.py:182-184 | a playlist without an error holds what it should if and only if it should hold something or was empty |
| ToolRuns.Tool.Run | cli/cli.cpp:231-255 | one run of the tool is a session with a library of its own that imports the files of the command line up to the first failure, and says of each file what it did |
| ToolRuns.Tool.Import | tools/jellyfin-sync/jellyfin_sync/device.py:119-144 | the runs of an import, one after the other on one device: batch by batch, and file by file after a batch that broke |
| ToolRuns.RunSkipsIff | tools/jellyfin-sync/jellyfin_sync/device.py:203-205 | a run that ends well reports a file as skipped if and only if the library it opened finds its track or the run imported it before |
| ToolRuns.RunIdentifies | tools/jellyfin-sync/jellyfin_sync/device.py:208-226 | the object id a run that ended well reports for a file is that of a track with the title and number of the file, as the device keeps them |
| ToolRuns.RetriedSkipsIff | tools/jellyfin-sync/jellyfin_sync/device.py:125-137 | of a file that a broken batch had imported: its retry skips it if and only if the library then opened finds it, which takes artist, album, title and number to have survived, and no more where no album was made under names that do not; else it is transferred a second time |
| ToolRuns.NothingTwiceIff | tools/jellyfin-sync/jellyfin_sync/device.py:125-137 | the retries of a broken batch transfer nothing a second time if and only if artist, album, title and number of every file it had imported survive the way to the device and back |
| ToolRuns.ImportTracks | tools/jellyfin-sync/jellyfin_sync/device.py:107-155 | import_tracks over these runs returns the verdicts that RetriedSkipsIff is about, for every file, and conserves the paths |
| SyncState.State.SelectDevice | tools/jellyfin-sync/jellyfin_sync/state.py:74-78 | no device loses its record and the selected one has one; an empty serial is the unknown device |
| SyncState.State.Record | tools/jellyfin-sync/jellyfin_sync/state.py:97-117 | one track of one device changes |
| SyncState.RecordedMeaning | tools/jellyfin-sync/jellyfin_sync/state.py:97-117 | a recorded track has the new description, file name and source, and keeps its known object id unless a new one comes; other tracks stay as they are |
| Sync.Collect | tools/jellyfin-sync/jellyfin_sync/sync.py:62-99 | each track once by id, in the order found, described as found first, in all playlists it was found in |
| Sync.OwnersRecorded | tools/jellyfin-sync/jellyfin_sync/sync.py:248-262 | for every outcome the state gains exactly the tracks last prepared under a path that was uploaded or skipped, whoever shares the path |
| Sync.RecordedAsPrepared | tools/jellyfin-sync/jellyfin_sync/sync.py:254-262 | what is recorded of such a track are the description, path and source it was prepared with; every other entry stays as it was |
| Sync.RecordsExactlyIff | tools/jellyfin-sync/jellyfin_sync/sync.py:230-262 | for every outcome and every earlier state exactly the tracks whose audio was uploaded or found are recorded, if and only if no staged file was overwritten for good by a track whose preparation then failed |
| Sync.SpoiledMisleads | tools/jellyfin-sync/jellyfin_sync/sync.py:140-178 | with a file so overwritten an outcome exists in which a track goes to the device and is not recorded |
| Sync.NextPending | tools/jellyfin-sync/jellyfin_sync/sync.py:201-207 | what the next run has to do is exactly what was not recorded before and was not last prepared under a path that succeeded now |
| Sync.PendingInOrder | tools/jellyfin-sync/jellyfin_sync/sync.py:201 | what a run has to do comes in the order of the tracks |
| Sync.LimitedMeaning | tools/jellyfin-sync/jellyfin_sync/sync.py:205-206 | a limit leaves the first n, and a negative one all but the last -n |
| Sync.RunRecordsOne | tools/jellyfin-sync/jellyfin_sync/sync.py:248-262 | a run in which nothing fails takes exactly one waiting track off each path that has any |
| Sync.RunsNeeded | tools/jellyfin-sync/jellyfin_sync/sync.py:201-262 | after n runs without failures every track that can be prepared is recorded if and only if no more than n unknown ones share a path |
| Sync.NothingForgotten | tools/jellyfin-sync/jellyfin_sync/state.py:113-117 | no run forgets a track or an object id, whatever happens to its uploads |
| Sync.RecordAllIds | tools/jellyfin-sync/jellyfin_sync/sync.py:256-262 | a recorded track has the id reported for its path, else the one known before |
| Sync.WorkIsDistinct | tools/jellyfin-sync/jellyfin_sync/sync.py:201-207 | no track is prepared twice in a run |
| Sync.Gather | tools/jellyfin-sync/jellyfin_sync/sync.py:290-298 | for every name the members that have an id, in the order of the tracks; no empty lists |
| Sync.MembersConcat | tools/jellyfin-sync/jellyfin_sync/sync.py:290-298 | the members of more tracks are those of the first and then those of the others |
| Sync.KnownMembers | tools/jellyfin-sync/jellyfin_sync/sync.py:292-297 | a track in the playlist gives its known object id, if it has one |
| Sync.OwnMembers | tools/jellyfin-sync/jellyfin_sync/sync.py:321-324 | or, for the record, its own id |
| Sync.Syncer.SyncPlaylists | tools/jellyfin-sync/jellyfin_sync/sync.py:284-317 | every playlist is settled from the ids known in the state, if the names of those with members read back |
| Sync.Syncer.RecordPlaylists | tools/jellyfin-sync/jellyfin_sync/sync.py:319-328 | memberships found replace those recorded, others stay, tracks and other devices are untouched |
| Sync.Syncer.Run | tools/jellyfin-sync/jellyfin_sync/sync.py:181-282 | the selected device's record gains exactly what the uploads justify and the memberships found, other devices keep theirs, the playlists whose names read back are settled from the ids known afterwards, and the exit code is that of the uploads, or without any of the playlists or of nothing having been prepared |
| Sync.FailsIff | tools/jellyfin-sync/jellyfin_sync/sync.py:209-282 | a run exits with an error exactly if an upload failed, if with nothing pending a playlist failed, or if none of the pending tracks could be prepared and it was not a dry run |

## Left out

- Albums: new ids are never the null id. Track listings of an album with two entries of one name and number may
  come in any order in the original; the first is taken. Album records are values in the library's map, addressed
  by artist and name, instead of shared pointers.
- Albums.Library.Load: dates and folders are not read; what is loaded has the music folder, and missing folders and
  artists are not made. The original makes an artist object for an album whose artist has none; here such an artist
  has the null id, and what is sent for it is refused.
- Albums.Library.ZuneImport: reading the metadata and the file; both are given.
- Playlists.Library.Load: a playlist whose name cannot be read is skipped by the original, one whose tracks cannot
  be read is loaded empty; here every name and list of tracks can be read.
- PipePacketer.Read: which packets stay in the pipe behind a malformed length, with which the call fails.
- Transactions.Run: session construction and `Close`, which read with transaction 0, and what happens after
  the counter wraps; no call runs with the filter off.
- UsbDevice: the continuation flag, timeouts (a block that does not fill up loses the packets it had taken and
  reads as a starved pipe), reaping, cancellation, and the other USB backends.
- MtpStrings: the bytes that a truncated sequence reads beyond the end of a string are taken to be zero; the
  original reads one byte past the terminator there. Surrogates pass through both ways as three-byte sequences.
- Importing: the 300-character cut of error lines and the text scraping itself.
- Sync: downloading, transcoding, tagging and saving; a staged path stands for its file name. Deleting staged
  files afterwards, and a state file that cannot be read.
- FuseTree.HandleRefines: operations on the root and its list of storages, and renames across directories, which
  the original refuses.
- FuseWrapper.FuseWrapper.ReadDirectory: times, modes and sizes in attributes, and the paging of a listing.
- FuseFiles: one object at a time; edit sessions are opened and closed, the reply to the kernel is not modelled.
- PropertyLists.Parse: values are read at their own width; the cast to a narrower property type is not modelled.
  128-bit and array types are refused by the original parser, and here.
- Tokenizer: buffer refilling and memory of the generated scanner; the longest-match rule stands for its tables.
- Codec: 128-bit reads, which skip half the value.
- The TrustedApp handshake, dates, enum names, object and storage info messages, hex dumps and logging.
- The Qt interface, the readline shell, help and listing commands, the Jellyfin and MusicBrainz clients.
- Reconnecting after unplugging, and device calls that fail half-way elsewhere than in an import or a rename.
