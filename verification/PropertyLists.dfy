/** Object property lists: the builders of mtp/metadata/Library.cpp and the parser of
    mtp/ptp/ObjectPropertyListParser.h. */
module PropertyLists {
  import opened Bytes
  import opened Results
  import opened Codec
  import opened MtpStrings

  // Property codes.
  const ARTIST_ID: u16 := 0xdab9
  const OBJECT_FILENAME: u16 := 0xdc07
  const NAME: u16 := 0xdc44
  const ARTIST: u16 := 0xdc46
  const DATE_AUTHORED: u16 := 0xdc47
  const TRACK: u16 := 0xdc8b
  const GENRE: u16 := 0xdc8c

  // Data type codes.
  const UINT16: u16 := 0x0004
  const UINT32: u16 := 0x0006
  const STRING: u16 := 0xffff

  datatype Value =
    | Number(dataType: nat, number: nat)
    | Text(text: bytes)

  datatype Property = Property(object_: nat, code: nat, value: Value)

  /** How many bytes a number of this data type takes; 0 for types that are not numbers. */
  function Width(dataType: nat): (n: nat)
    ensures n in {0, 1, 2, 4, 8}
  {
    if dataType == 1 || dataType == 2 then 1
    else if dataType == 3 || dataType == 4 then 2
    else if dataType == 5 || dataType == 6 then 4
    else if dataType == 7 || dataType == 8 then 8
    else 0
  }

  function TypeOf(v: Value): nat {
    match v case Number(t, _) => t case Text(_) => STRING
  }

  // -- The wire form -----------------------------------------------------------

  /** Numbers within their widths. */
  predicate InRange(p: Property) {
    && p.object_ < 0x1_0000_0000 && p.code < 0x1_0000
    && (p.value.Number? ==> Width(p.value.dataType) > 0 && p.value.number < Pow256(Width(p.value.dataType)))
  }

  /** Values that do not displace what follows them. */
  predicate Counted(p: Property) {
    InRange(p) && (p.value.Text? ==> Encode(p.value.text).Ok? && WellCounted(p.value.text))
  }

  /** Values that survive the trip. */
  predicate Sendable(p: Property) {
    InRange(p) && (p.value.Text? ==> Portable(p.value.text))
  }

  /** The property as it is read back. */
  function AsRead(p: Property): Property {
    if p.value.Text? then p.(value := Text(Recoded(p.value.text))) else p
  }

  function AllAsRead(ps: seq<Property>): (r: seq<Property>)
    ensures |r| == |ps| && forall i | 0 <= i < |ps| :: r[i] == AsRead(ps[i])
  {
    if ps == [] then [] else [AsRead(ps[0])] + AllAsRead(ps[1..])
  }

  /** Sendable values are the counted ones that read back as they are. */
  lemma SendableIff(p: Property)
    requires InRange(p) && EncodeValue(p.value).Ok?
    ensures Sendable(p) <==> Counted(p) && AsRead(p) == p
  {
    if p.value.Text? {
      RecodedIff(p.value.text);
    }
  }

  function EncodeValue(v: Value): (r: Result<bytes, Error>) {
    match v
    case Number(t, n) => Ok(LeBytes(n, Width(t)))
    case Text(s) => Encode(s)
  }

  function Header(p: Property): (b: bytes)
    ensures |b| == 8
  {
    LeBytes(p.object_, 4) + LeBytes(p.code, 2) + LeBytes(TypeOf(p.value), 2)
  }

  /** The entries one after the other, up to a string that is too big. */
  function EncodeAll(ps: seq<Property>): (r: Result<bytes, Error>) {
    if ps == [] then Ok([])
    else
      var first :- EncodeValue(ps[0].value);
      var rest :- EncodeAll(ps[1..]);
      Ok(Header(ps[0]) + first + rest)
  }

  function EncodeList(ps: seq<Property>): (r: Result<bytes, Error>)
    requires |ps| < 0x1_0000_0000
  {
    var body :- EncodeAll(ps);
    Ok(LeBytes(|ps|, 4) + body)
  }

  // -- The parser ----------------------------------------------------------------

  /** The value parsers the list parser is instantiated with: strings, integers, or by data type. */
  datatype Parser = Strings | Integers | Typed

  function ReadsText(parser: Parser, dataType: nat): bool {
    dataType == STRING && parser != Integers
  }

  function ReadsNumber(parser: Parser, dataType: nat): bool {
    Width(dataType) > 0 && parser != Strings
  }

  /** A value at a position, and where it ends. */
  function ValueAt(parser: Parser, dataType: nat, data: bytes, at: nat): (r: Result<(Value, nat), Error>) {
    if ReadsText(parser, dataType) then
      match Decode(data, at)
      case Ok((s, end)) => Ok((Text(s), end))
      case Err(e) => Err(e)
    else if ReadsNumber(parser, dataType) then
      match NumberAt(data, at, Width(dataType))
      case Ok(n) => Ok((Number(dataType, n), at + Width(dataType)))
      case Err(e) => Err(e)
    else Err(InvalidType)
  }

  /** An entry at a position, and where it ends. */
  function EntryAt(parser: Parser, data: bytes, at: nat): (r: Result<(Property, nat), Error>) {
    var object_ :- NumberAt(data, at, 4);
    var code :- NumberAt(data, at + 4, 2);
    var dataType :- NumberAt(data, at + 6, 2);
    var value :- ValueAt(parser, dataType, data, at + 8);
    Ok((Property(object_, code, value.0), value.1))
  }

  /** The entries handed to the callback, and where the list ends or why it fails. */
  datatype Parsed = Parsed(entries: seq<Property>, end: Result<nat, Error>)

  /** What lies at a position. */
  type EntryReader = nat -> Result<(Property, nat), Error>

  function Reader(parser: Parser, data: bytes): EntryReader {
    (at: nat) => EntryAt(parser, data, at)
  }

  /** n entries one after the other, whatever an entry is. */
  function EntriesFrom(entry: EntryReader, at: nat, n: nat): Parsed
    decreases n
  {
    if n == 0 then Parsed([], Ok(at))
    else
      match entry(at)
      case Ok((p, end)) => Before([p], EntriesFrom(entry, end, n - 1))
      case Err(e) => Parsed([], Err(e))
  }

  /** Entries in front of others. */
  function Before(entries: seq<Property>, rest: Parsed): Parsed {
    Parsed(entries + rest.entries, rest.end)
  }

  function ParseOf(parser: Parser, data: bytes): Parsed {
    match NumberAt(data, 0, 4)
    case Ok(n) => EntriesFrom(Reader(parser, data), 4, n)
    case Err(e) => Parsed([], Err(e))
  }

  method ReadValue(parser: Parser, dataType: nat, stream: InputStream) returns (r: Result<Value, Error>)
    modifies stream
    ensures match ValueAt(parser, dataType, stream.data, old(stream.offset))
            case Ok((v, end)) => r == Ok(v) && stream.offset == end
            case Err(e) => r == Err(e)
    ensures r.Ok? ==>
      if dataType == 0xffff then r.value.Text?
      else r.value.Number? && 1 <= dataType <= 8 && stream.offset == old(stream.offset) + [1, 1, 2, 2, 4, 4, 8, 8][dataType - 1]
  {
    if ReadsText(parser, dataType) {
      var s :- ReadString(stream);
      return Ok(Text(s));
    }
    if !ReadsNumber(parser, dataType) {
      return Err(InvalidType);
    }
    ghost var at := stream.offset;
    var n: nat;
    if Width(dataType) == 1 {
      var b :- stream.Read8();
      n := b;
      assert stream.data[at..at + 1] == [b] && LeValue([b]) == b + 0x100 * LeValue([b][1..]);
    } else if Width(dataType) == 2 {
      n :- stream.Read16();
    } else if Width(dataType) == 4 {
      n :- stream.Read32();
    } else {
      n :- stream.Read64();
    }
    r := Ok(Number(dataType, n));
  }

  method ReadEntry(parser: Parser, stream: InputStream) returns (r: Result<Property, Error>)
    modifies stream
    ensures match EntryAt(parser, stream.data, old(stream.offset))
            case Ok((p, end)) => r == Ok(p) && stream.offset == end
            case Err(e) => r == Err(e)
  {
    var object_ :- stream.Read32();
    var code :- stream.Read16();
    var dataType :- stream.Read16();
    var value :- ReadValue(parser, dataType, stream);
    r := Ok(Property(object_, code, value));
  }

  /** The entries read one after the other, and the positions between them. */
  ghost predicate Traced(entry: EntryReader, ends: seq<nat>, entries: seq<Property>) {
    && |ends| == |entries| + 1
    && forall i | 0 <= i < |entries| :: entry(ends[i]) == Ok((entries[i], ends[i + 1]))
  }

  /** Parse: entries go to the callback one by one, also before an exception. */
  method Parse(parser: Parser, data: bytes) returns (entries: seq<Property>, end: Result<nat, Error>)
    ensures Parsed(entries, end) == ParseOf(parser, data)
  {
    entries := [];
    var stream := new InputStream(data);
    var count := stream.Read32();
    if count.Err? {
      return [], Err(count.error);
    }
    ghost var ends: seq<nat> := [4];
    var n: nat := count.value;
    while n > 0
      invariant n >= 0 && |entries| + n == count.value
      invariant Traced(Reader(parser, data), ends, entries) && ends[0] == 4 && stream.offset == ends[|entries|]
    {
      var entry := ReadEntry(parser, stream);
      if entry.Err? {
        TraceStopped(Reader(parser, data), ends, entries, count.value, entry.error);
        return entries, Err(entry.error);
      }
      entries := entries + [entry.value];
      ends := ends + [stream.offset];
      n := n - 1;
    }
    TraceEnded(Reader(parser, data), ends, entries);
    end := Ok(stream.offset);
  }

  lemma BeforeTwice(a: seq<Property>, b: seq<Property>, rest: Parsed)
    ensures Before(a, Before(b, rest)) == Before(a + b, rest)
  {
    Associative(a, b, rest.entries);
  }

  lemma {:induction false} TracedParse(entry: EntryReader, ends: seq<nat>, entries: seq<Property>, n: nat)
    requires Traced(entry, ends, entries) && |entries| <= n
    ensures EntriesFrom(entry, ends[0], n) == Before(entries, EntriesFrom(entry, ends[|entries|], n - |entries|))
    decreases |entries|
  {
    var last := EntriesFrom(entry, ends[|entries|], n - |entries|);
    if entries == [] {
      assert [] + last.entries == last.entries;
    } else {
      TracedParse(entry, ends[1..], entries[1..], n - 1);
      BeforeTwice([entries[0]], entries[1..], last);
      assert [entries[0]] + entries[1..] == entries;
    }
  }

  lemma TraceEnded(entry: EntryReader, ends: seq<nat>, entries: seq<Property>)
    requires Traced(entry, ends, entries)
    ensures EntriesFrom(entry, ends[0], |entries|) == Parsed(entries, Ok(ends[|entries|]))
  {
    TracedParse(entry, ends, entries, |entries|);
    assert entries + [] == entries;
  }

  lemma TraceStopped(entry: EntryReader, ends: seq<nat>, entries: seq<Property>, n: nat, error: Error)
    requires Traced(entry, ends, entries) && |entries| < n && entry(ends[|entries|]) == Err(error)
    ensures EntriesFrom(entry, ends[0], n) == Parsed(entries, Err(error))
  {
    TracedParse(entry, ends, entries, n);
    assert entries + [] == entries;
  }

  // -- What the parser makes of an encoded list ------------------------------------

  predicate AllSendable(ps: seq<Property>) {
    forall p | p in ps :: Sendable(p)
  }

  predicate AllInRange(ps: seq<Property>) {
    forall p | p in ps :: InRange(p)
  }

  predicate AllCounted(ps: seq<Property>) {
    forall p | p in ps :: Counted(p)
  }

  /** Whether an instance of the parser can read the value. */
  predicate Readable(parser: Parser, p: Property) {
    match parser
    case Strings => p.value.Text?
    case Integers => p.value.Number?
    case Typed => true
  }

  /** The entries before the first that the parser cannot read. */
  function ReadablePrefix(parser: Parser, ps: seq<Property>): seq<Property> {
    if ps == [] || !Readable(parser, ps[0]) then [] else [ps[0]] + ReadablePrefix(parser, ps[1..])
  }

  lemma NumberRoundTrip(head: bytes, n: nat, width: nat, rest: bytes)
    requires n < Pow256(width)
    ensures NumberAt(head + LeBytes(n, width) + rest, |head|, width) == Ok(n)
  {
    var b := LeBytes(n, width);
    LeValueOfLeBytes(n, width);
    assert (head + b + rest)[|head|..|head| + width] == b;
  }

  lemma ValueRoundTrip(parser: Parser, head: bytes, p: Property, rest: bytes)
    requires Counted(p)
    ensures EncodeValue(p.value).Ok?
    ensures var b := EncodeValue(p.value).value;
      ValueAt(parser, TypeOf(p.value), head + b + rest, |head|)
      == if Readable(parser, p) then Ok((AsRead(p).value, |head| + |b|)) else Err(InvalidType)
  {
    if p.value.Number? {
      NumberRoundTrip(head, p.value.number, Width(p.value.dataType), rest);
    } else {
      ReadsFromItsBytesIff(head, p.value.text, rest);
    }
  }

  /** The three numbers in front of a value. */
  lemma HeaderReads(head: bytes, p: Property, rest: bytes)
    requires InRange(p)
    ensures var data, at := head + Header(p) + rest, |head|;
      && at + 8 <= |data|
      && NumberAt(data, at, 4) == Ok(p.object_)
      && NumberAt(data, at + 4, 2) == Ok(p.code)
      && NumberAt(data, at + 6, 2) == Ok(TypeOf(p.value))
  {
    var o, c, t := LeBytes(p.object_, 4), LeBytes(p.code, 2), LeBytes(TypeOf(p.value), 2);
    Pow256Values();
    NumberRoundTrip(head, p.object_, 4, c + t + rest);
    NumberRoundTrip(head + o, p.code, 2, t + rest);
    NumberRoundTrip(head + o + c, TypeOf(p.value), 2, rest);
    var data := head + Header(p) + rest;
    assert data == head + o + (c + t + rest);
    assert data == head + o + c + (t + rest);
    assert data == head + o + c + t + rest;
  }

  /** The header of a new object's property, byte by byte. */
  lemma HeaderBytes(p: Property)
    requires InRange(p) && p.object_ == 0
    ensures var t := if p.value.Text? then 0xffff else p.value.dataType;
      Header(p) == [0, 0, 0, 0, p.code % 0x100, p.code / 0x100, t % 0x100, t / 0x100]
  {
    LeBytesHalves(p.code);
    LeBytesHalves(TypeOf(p.value));
    LeBytesOfHalves(0);
    LeBytesHalves(0);
  }

  lemma EntryRoundTrip(parser: Parser, data: bytes, head: bytes, p: Property, rest: bytes)
    requires Counted(p) && EncodeValue(p.value).Ok?
    requires data == head + Header(p) + EncodeValue(p.value).value + rest
    ensures EntryAt(parser, data, |head|)
         == if Readable(parser, p) then Ok((AsRead(p), |head| + 8 + |EncodeValue(p.value).value|)) else Err(InvalidType)
  {
    ValueRoundTrip(parser, head + Header(p), p, rest);
    HeaderReads(head, p, EncodeValue(p.value).value + rest);
    Associative(head + Header(p), EncodeValue(p.value).value, rest);
  }

  lemma EncodeAllParts(head: bytes, ps: seq<Property>)
    requires ps != [] && EncodeValue(ps[0].value).Ok? && EncodeAll(ps[1..]).Ok?
    ensures EncodeAll(ps).Ok?
    ensures head + EncodeAll(ps).value == head + Header(ps[0]) + EncodeValue(ps[0].value).value + EncodeAll(ps[1..]).value
  {
    var h, b, rest := Header(ps[0]), EncodeValue(ps[0].value).value, EncodeAll(ps[1..]).value;
    Regrouped(head, h, b, rest);
  }

  function ParsedTo(parser: Parser, ps: seq<Property>, end: nat): Parsed {
    var read := ReadablePrefix(parser, ps);
    Parsed(read, if read == ps then Ok(end) else Err(InvalidType))
  }

  lemma ParsedToStep(parser: Parser, ps: seq<Property>, end: nat)
    requires ps != []
    ensures ParsedTo(parser, ps, end) ==
      if Readable(parser, ps[0]) then Before([ps[0]], ParsedTo(parser, ps[1..], end)) else Parsed([], Err(InvalidType))
  {
    assert [ps[0]] + ps[1..] == ps;
    if Readable(parser, ps[0]) && ReadablePrefix(parser, ps) == ps {
      assert ReadablePrefix(parser, ps)[1..] == ps[1..];
    }
  }

  /** What the parser makes of each entry where it lies: the entry, or a refusal. */
  ghost predicate Laid(parser: Parser, entry: EntryReader, at: nat, ps: seq<Property>, end: nat)
    decreases |ps|
  {
    if ps == [] then at == end
    else if Readable(parser, ps[0]) then
      entry(at).Ok? && entry(at).value.0 == ps[0] && Laid(parser, entry, entry(at).value.1, ps[1..], end)
    else entry(at) == Err(InvalidType)
  }

  lemma {:induction false} LaidIsParsed(parser: Parser, entry: EntryReader, at: nat, ps: seq<Property>, end: nat)
    requires Laid(parser, entry, at, ps, end)
    ensures EntriesFrom(entry, at, |ps|) == ParsedTo(parser, ps, end)
    decreases |ps|
  {
    if ps != [] {
      ParsedToStep(parser, ps, end);
      if Readable(parser, ps[0]) {
        LaidIsParsed(parser, entry, entry(at).value.1, ps[1..], end);
      }
    }
  }

  lemma {:induction false} CountedEncodes(ps: seq<Property>)
    requires AllCounted(ps)
    ensures EncodeAll(ps).Ok?
    ensures ps != [] ==> EncodeValue(ps[0].value).Ok? && EncodeAll(ps[1..]).Ok?
  {
    if ps != [] {
      ValueRoundTrip(Typed, [], ps[0], []);
      CountedEncodes(ps[1..]);
    }
  }

  lemma OneMoreLaid(parser: Parser, data: bytes, head: bytes, ps: seq<Property>, next: nat, rest: bytes)
    requires ps != [] && Counted(ps[0]) && EncodeValue(ps[0].value).Ok?
    requires data == head + Header(ps[0]) + EncodeValue(ps[0].value).value + rest
    requires next == |head| + 8 + |EncodeValue(ps[0].value).value|
    requires Laid(parser, Reader(parser, data), next, AllAsRead(ps[1..]), |data|)
    ensures Laid(parser, Reader(parser, data), |head|, AllAsRead(ps), |data|)
  {
    hide Laid, EncodeValue, Header, EntryAt, Counted;
    EntryRoundTrip(parser, data, head, ps[0], rest);
    assert AllAsRead(ps)[1..] == AllAsRead(ps[1..]);
    LaidCons(parser, Reader(parser, data), |head|, AllAsRead(ps), next, |data|);
  }

  lemma LaidCons(parser: Parser, entry: EntryReader, at: nat, ps: seq<Property>, next: nat, end: nat)
    requires ps != [] && entry(at) == if Readable(parser, ps[0]) then Ok((ps[0], next)) else Err(InvalidType)
    requires Laid(parser, entry, next, ps[1..], end)
    ensures Laid(parser, entry, at, ps, end)
  {
  }

  lemma {:induction false} EncodedIsLaid(parser: Parser, head: bytes, ps: seq<Property>)
    requires AllCounted(ps)
    ensures EncodeAll(ps).Ok?
    ensures var data := head + EncodeAll(ps).value; Laid(parser, Reader(parser, data), |head|, AllAsRead(ps), |data|)
    decreases |ps|
  {
    if ps != [] {
      CountedEncodes(ps);
      var next, rest := head + Header(ps[0]) + EncodeValue(ps[0].value).value, EncodeAll(ps[1..]).value;
      EncodeAllParts(head, ps);
      EncodedIsLaid(parser, next, ps[1..]);
      OneMoreLaid(parser, head + EncodeAll(ps).value, head, ps, |next|, rest);
    }
  }

  /** Parsing an encoded list of counted values hands over exactly its entries, as they read back,
      up to the first of a type the parser is not made for, and ends at the last byte if there is
      none. */
  lemma ListRoundTrip(parser: Parser, ps: seq<Property>)
    requires AllCounted(ps) && |ps| < 0x1_0000_0000
    ensures EncodeList(ps).Ok?
    ensures ParseOf(parser, EncodeList(ps).value)
         == Parsed(ReadablePrefix(parser, AllAsRead(ps)),
                   if forall p | p in ps :: Readable(parser, p) then Ok(|EncodeList(ps).value|) else Err(InvalidType))
  {
    var head := LeBytes(|ps|, 4);
    EncodedIsLaid(parser, head, ps);
    var data := head + EncodeAll(ps).value;
    LaidIsParsed(parser, Reader(parser, data), 4, AllAsRead(ps), |data|);
    Pow256Values();
    NumberRoundTrip([], |ps|, 4, EncodeAll(ps).value);
    assert [] + head == head;
    WholePrefix(parser, AllAsRead(ps));
    SameKinds(parser, ps);
  }

  lemma SameKinds(parser: Parser, ps: seq<Property>)
    ensures (forall p | p in AllAsRead(ps) :: Readable(parser, p)) <==> (forall p | p in ps :: Readable(parser, p))
  {
    var rs := AllAsRead(ps);
    if forall p | p in rs :: Readable(parser, p) {
      forall i | 0 <= i < |ps|
        ensures Readable(parser, ps[i])
      {
        assert rs[i] in rs;
      }
    }
    if forall p | p in ps :: Readable(parser, p) {
      forall i | 0 <= i < |rs|
        ensures Readable(parser, rs[i])
      {
        assert ps[i] in ps;
      }
    }
  }

  lemma {:induction false} WholePrefix(parser: Parser, ps: seq<Property>)
    ensures ReadablePrefix(parser, ps) == ps <==> forall p | p in ps :: Readable(parser, p)
  {
    if ps != [] {
      WholePrefix(parser, ps[1..]);
      assert ps == [ps[0]] + ps[1..];
      if ReadablePrefix(parser, ps) == ps {
        assert ReadablePrefix(parser, ps)[1..] == ps[1..];
      }
    }
  }

  // -- What a list says ------------------------------------------------------------

  function TextOf(p: Property, code: nat): seq<bytes> {
    if p.code == code && p.value.Text? then [p.value.text] else []
  }

  function NumberOf(p: Property, code: nat): seq<nat> {
    if p.code == code && p.value.Number? then [p.value.number] else []
  }

  /** The strings a list gives for a property, */
  function Texts(ps: seq<Property>, code: nat): seq<bytes> {
    if ps == [] then [] else TextOf(ps[0], code) + Texts(ps[1..], code)
  }

  /** and the numbers. */
  function Numbers(ps: seq<Property>, code: nat): seq<nat> {
    if ps == [] then [] else NumberOf(ps[0], code) + Numbers(ps[1..], code)
  }

  /** The string a device takes, empty if the list has none. */
  function TextFor(ps: seq<Property>, code: nat): bytes {
    var texts := Texts(ps, code);
    if texts == [] then [] else texts[0]
  }

  /** The entries of a list sent to the device. */
  function Entries(data: bytes): seq<Property> {
    ParseOf(Typed, data).entries
  }

  predicate ReadWhole(data: bytes) {
    ParseOf(Typed, data).end == Ok(|data|)
  }

  /** A string that can be sent and does not displace what follows. */
  predicate TextOk(s: bytes) {
    Encode(s).Ok? && WellCounted(s)
  }

  predicate AllNew(es: seq<Property>) {
    forall p | p in es :: p.object_ == 0
  }

  /** A folder's name is its file name. */
  predicate SaysFolder(es: seq<Property>, name: bytes) {
    |es| == 1 && AllNew(es) && Texts(es, 0xdc07) == [Recoded(name)]
  }

  predicate ArtistOk(name: bytes) {
    TextOk(name) && TextOk(name + [0x2e, 0x61, 0x72, 0x74])
  }

  predicate SaysArtist(es: seq<Property>, name: bytes) {
    && |es| == 2 && AllNew(es)
    && Texts(es, 0xdc44) == [Recoded(name)] && Texts(es, 0xdc07) == [Recoded(name + [0x2e, 0x61, 0x72, 0x74])]
  }

  predicate NamedOk(artist: Artist) {
    artist.supported || TextOk(artist.name)
  }

  /** The artist by id or by name. */
  predicate SaysBy(es: seq<Property>, artist: Artist) {
    && Numbers(es, 0xdab9) == (if artist.supported then [artist.id] else [])
    && Texts(es, 0xdc46) == (if artist.supported then [] else [Recoded(artist.name)])
  }

  /** The artist's name, two dashes, the album's name and ".alb". */
  function AlbumFile(artist: bytes, name: bytes): bytes {
    artist + [0x2d, 0x2d] + name + [0x2e, 0x61, 0x6c, 0x62]
  }

  predicate AlbumOk(artist: Artist, name: bytes, year: int, dateSupported: bool, date: bytes) {
    && NamedOk(artist) && TextOk(name) && TextOk(AlbumFile(artist.name, name))
    && (year != 0 && dateSupported ==> TextOk(date))
  }

  predicate SaysAlbum(es: seq<Property>, artist: Artist, name: bytes, year: int, dateSupported: bool, date: bytes) {
    && |es| == (if year != 0 && dateSupported then 4 else 3) && AllNew(es) && SaysBy(es, artist)
    && Texts(es, 0xdc44) == [Recoded(name)] && Texts(es, 0xdc07) == [Recoded(AlbumFile(artist.name, name))]
    && Texts(es, 0xdc47) == (if year != 0 && dateSupported then [Recoded(date)] else [])
  }

  predicate TrackOk(artist: Artist, name: bytes, genre: bytes, filename: bytes) {
    NamedOk(artist) && TextOk(name) && TextOk(filename) && TextOk(genre)
  }

  /** The number modulo 2^16, unless it is zero; the genre, unless it is empty. */
  predicate SaysTrack(es: seq<Property>, artist: Artist, name: bytes, trackIndex: int, genre: bytes, filename: bytes) {
    && |es| == 3 + (if trackIndex != 0 then 1 else 0) + (if genre != [] then 1 else 0) && AllNew(es) && SaysBy(es, artist)
    && Texts(es, 0xdc44) == [Recoded(name)] && Texts(es, 0xdc07) == [Recoded(filename)]
    && Texts(es, 0xdc8c) == (if genre != [] then [Recoded(genre)] else [])
    && Numbers(es, 0xdc8b) == (if trackIndex != 0 then [trackIndex % 65536] else [])
  }

  predicate PlaylistOk(name: bytes, filenameSupported: bool) {
    TextOk(name) && (filenameSupported ==> TextOk(name + [0x2e, 0x70, 0x6c]))
  }

  predicate SaysPlaylist(es: seq<Property>, name: bytes, filenameSupported: bool) {
    && |es| == (if filenameSupported then 2 else 1) && AllNew(es)
    && Texts(es, 0xdc44) == [Recoded(name)]
    && Texts(es, 0xdc07) == (if filenameSupported then [Recoded(name + [0x2e, 0x70, 0x6c])] else [])
  }

  // -- The builders --------------------------------------------------------------

  method WriteHeader(stream: OutputStream, code: u16, dataType: u16)
    modifies stream
    ensures stream.data == old(stream.data) + (LeBytes(0, 4) + LeBytes(code, 2) + LeBytes(dataType, 2))
  {
    stream.Write32(0);
    stream.Write16(code);
    stream.Write16(dataType);
    Associative(old(stream.data), LeBytes(0, 4), LeBytes(code, 2));
    Associative(old(stream.data), LeBytes(0, 4) + LeBytes(code, 2), LeBytes(dataType, 2));
  }

  /** What is in the stream so far: the declared count and the entries written. */
  ghost predicate Holds(data: bytes, count: u32, ps: seq<Property>) {
    EncodeAll(ps).Ok? && data == LeBytes(count, 4) + EncodeAll(ps).value
  }

  lemma {:induction false} EncodeAllSnoc(ps: seq<Property>, p: Property)
    requires EncodeAll(ps).Ok?
    ensures match EncodeValue(p.value)
            case Ok(b) => EncodeAll(ps + [p]) == Ok(EncodeAll(ps).value + (Header(p) + b))
            case Err(e) => EncodeAll(ps + [p]) == Err(e)
  {
    if ps == [] {
      assert [p][1..] == [] && EncodeAll([]) == Ok([]);
      assert [] + [p] == [p];
      if EncodeValue(p.value).Ok? {
        assert Header(p) + EncodeValue(p.value).value + [] == Header(p) + EncodeValue(p.value).value;
        assert [] + (Header(p) + EncodeValue(p.value).value) == Header(p) + EncodeValue(p.value).value;
      }
    } else {
      EncodeAllSnoc(ps[1..], p);
      assert (ps + [p])[0] == ps[0] && (ps + [p])[1..] == ps[1..] + [p];
      if EncodeValue(p.value).Ok? {
        Associative(Header(ps[0]) + EncodeValue(ps[0].value).value, EncodeAll(ps[1..]).value, Header(p) + EncodeValue(p.value).value);
      }
    }
  }

  /** An entry that cannot be encoded spoils every list it starts. */
  lemma {:induction false} EncodeAllFails(ps: seq<Property>, rest: seq<Property>)
    requires EncodeAll(ps).Err?
    ensures EncodeAll(ps + rest) == EncodeAll(ps)
  {
    assert (ps + rest)[0] == ps[0] && (ps + rest)[1..] == ps[1..] + rest;
    if EncodeValue(ps[0].value).Ok? {
      EncodeAllFails(ps[1..], rest);
    }
  }

  lemma EncodeNext(all: seq<Property>, k: nat)
    requires k < |all| && EncodeAll(all[..k]).Ok?
    ensures match EncodeValue(all[k].value)
            case Ok(b) => EncodeAll(all[..k + 1]) == Ok(EncodeAll(all[..k]).value + (Header(all[k]) + b))
            case Err(e) => EncodeAll(all) == Err(e)
  {
    hide EncodeAll, EncodeValue, Header;
    EncodeAllSnoc(all[..k], all[k]);
    assert all[..k + 1] == all[..k] + [all[k]];
    Spoiled(all, k + 1);
  }

  lemma Spoiled(all: seq<Property>, k: nat)
    requires k <= |all|
    ensures EncodeAll(all[..k]).Err? ==> EncodeAll(all) == EncodeAll(all[..k])
  {
    if EncodeAll(all[..k]).Err? {
      EncodeAllFails(all[..k], all[k..]);
      assert all[..k] + all[k..] == all;
    }
  }

  /** The k-th entry of the list being written, a string. */
  method WriteText(stream: OutputStream, code: u16, text: bytes, ghost all: seq<Property>, ghost k: nat) returns (r: Result<(), Error>)
    requires k < |all| < 0x1_0000_0000 && all[k] == Property(0, code, Text(text)) && Holds(stream.data, |all|, all[..k])
    modifies stream
    ensures if r.Ok? then Holds(stream.data, |all|, all[..k + 1]) else EncodeAll(all) == Err(r.error)
  {
    EncodeNext(all, k);
    ghost var before := stream.data;
    WriteHeader(stream, code, STRING);
    r := WriteString(stream, text);
    if r.Ok? {
      ghost var b := EncodeValue(all[k].value).value;
      Associative(before, Header(all[k]), b);
      Associative(LeBytes(|all|, 4), EncodeAll(all[..k]).value, Header(all[k]) + b);
    }
  }

  /** The k-th entry, a number. */
  method WriteNumber(stream: OutputStream, code: u16, dataType: u16, number: u32, ghost all: seq<Property>, ghost k: nat)
    requires dataType == UINT16 || dataType == UINT32
    requires k < |all| < 0x1_0000_0000 && all[k] == Property(0, code, Number(dataType, number)) && Holds(stream.data, |all|, all[..k])
    requires dataType == UINT16 ==> number < 0x1_0000
    modifies stream
    ensures Holds(stream.data, |all|, all[..k + 1])
  {
    EncodeNext(all, k);
    ghost var before := stream.data;
    WriteHeader(stream, code, dataType);
    if dataType == UINT16 {
      stream.Write16(number);
    } else {
      stream.Write32(number);
    }
    ghost var b := EncodeValue(all[k].value).value;
    Associative(before, Header(all[k]), b);
    Associative(LeBytes(|all|, 4), EncodeAll(all[..k]).value, Header(all[k]) + b);
  }

  /** Artists by id where the device has artist objects, else by name. */
  datatype Artist = Artist(supported: bool, id: u32, name: bytes)

  function ArtistEntry(a: Artist): Property {
    if a.supported then Property(0, ARTIST_ID, Number(UINT32, a.id)) else Property(0, ARTIST, Text(a.name))
  }

  method WriteArtist(stream: OutputStream, a: Artist, ghost all: seq<Property>) returns (r: Result<(), Error>)
    requires 0 < |all| < 0x1_0000_0000 && all[0] == ArtistEntry(a) && Holds(stream.data, |all|, [])
    modifies stream
    ensures if r.Ok? then Holds(stream.data, |all|, all[..1]) else EncodeAll(all) == Err(r.error)
  {
    assert all[..0] == [];
    if a.supported {
      WriteNumber(stream, ARTIST_ID, UINT32, a.id, all, 0);
      r := Ok(());
    } else {
      r := WriteText(stream, ARTIST, a.name, all, 0);
    }
  }

  method Begin(count: u32) returns (stream: OutputStream)
    ensures fresh(stream) && Holds(stream.data, count, [])
  {
    stream := new OutputStream([]);
    stream.Write32(count);
    assert [] + LeBytes(count, 4) == LeBytes(count, 4) + [];
  }

  /** The finished list. */
  method Finish(stream: OutputStream, ghost all: seq<Property>) returns (r: Result<bytes, Error>)
    requires |all| < 0x1_0000_0000 && Holds(stream.data, |all|, all[..|all|])
    ensures r == EncodeList(all)
  {
    assert all[..|all|] == all;
    r := Ok(stream.data);
  }

  // ".art", "--", ".alb" and ".pl"
  const ART: bytes := [0x2e, 0x61, 0x72, 0x74]
  const DASHES: bytes := [0x2d, 0x2d]
  const ALB: bytes := [0x2e, 0x61, 0x6c, 0x62]
  const PL: bytes := [0x2e, 0x70, 0x6c]

  function FolderList(name: bytes): seq<Property> {
    [Property(0, OBJECT_FILENAME, Text(name))]
  }

  method CreateFolderList(name: bytes) returns (r: Result<bytes, Error>)
    ensures r == EncodeList(FolderList(name))
    ensures r.Ok? && TextOk(name) ==> ReadWhole(r.value) && SaysFolder(Entries(r.value), name)
  {
    ghost var all := FolderList(name);
    FolderSays(name);
    var stream := Begin(1);
    assert all[..0] == [];
    var _ :- WriteText(stream, OBJECT_FILENAME, name, all, 0);
    r := Finish(stream, all);
  }

  function ArtistList(name: bytes): seq<Property> {
    [Property(0, NAME, Text(name)), Property(0, OBJECT_FILENAME, Text(name + ART))]
  }

  method CreateArtistList(name: bytes) returns (r: Result<bytes, Error>)
    ensures r == EncodeList(ArtistList(name))
    ensures r.Ok? && ArtistOk(name) ==> ReadWhole(r.value) && SaysArtist(Entries(r.value), name)
  {
    hide Holds, ReadWhole, Entries, SaysArtist, ArtistOk;
    ghost var all := ArtistList(name);
    ArtistSays(name);
    var stream := Begin(2);
    assert all[..0] == [];
    var _ :- WriteText(stream, NAME, name, all, 0);
    var _ :- WriteText(stream, OBJECT_FILENAME, name + ART, all, 1);
    r := Finish(stream, all);
  }

  /** `date` is the converted year, sent when there is a year and the device has the property. */
  function AlbumList(artist: Artist, name: bytes, year: int, dateSupported: bool, date: bytes): seq<Property> {
    [ArtistEntry(artist), Property(0, NAME, Text(name)), Property(0, OBJECT_FILENAME, Text(artist.name + DASHES + name + ALB))]
    + if year != 0 && dateSupported then [Property(0, DATE_AUTHORED, Text(date))] else []
  }

  method CreateAlbumList(artist: Artist, name: bytes, year: int, dateSupported: bool, date: bytes) returns (r: Result<bytes, Error>)
    ensures r == EncodeList(AlbumList(artist, name, year, dateSupported, date))
    ensures r.Ok? && AlbumOk(artist, name, year, dateSupported, date) ==>
      ReadWhole(r.value) && SaysAlbum(Entries(r.value), artist, name, year, dateSupported, date)
  {
    hide Holds, ReadWhole, Entries, SaysAlbum, AlbumOk;
    ghost var all := AlbumList(artist, name, year, dateSupported, date);
    AlbumSays(artist, name, year, dateSupported, date);
    var sendYear := year != 0 && dateSupported;
    var stream := Begin(3 + if sendYear then 1 else 0);
    var _ :- WriteArtist(stream, artist, all);
    var _ :- WriteText(stream, NAME, name, all, 1);
    var _ :- WriteText(stream, OBJECT_FILENAME, artist.name + DASHES + name + ALB, all, 2);
    if sendYear {
      var _ :- WriteText(stream, DATE_AUTHORED, date, all, 3);
    }
    r := Finish(stream, all);
  }

  /** A track number is sent in 16 bits, unless it is zero. */
  function TrackList(artist: Artist, name: bytes, trackIndex: int, genre: bytes, filename: bytes): seq<Property> {
    [ArtistEntry(artist), Property(0, NAME, Text(name))]
    + (if trackIndex != 0 then [Property(0, TRACK, Number(UINT16, trackIndex % 0x1_0000))] else [])
    + (if genre != [] then [Property(0, GENRE, Text(genre))] else [])
    + [Property(0, OBJECT_FILENAME, Text(filename))]
  }

  /** Which entry is where. */
  predicate TrackEntries(all: seq<Property>, artist: Artist, name: bytes, trackIndex: int, genre: bytes, filename: bytes) {
    var g := if trackIndex != 0 then 3 else 2;
    var f := if genre != [] then g + 1 else g;
    && |all| == f + 1
    && all[0] == ArtistEntry(artist) && all[1] == Property(0, NAME, Text(name))
    && (trackIndex != 0 ==> all[2] == Property(0, TRACK, Number(UINT16, trackIndex % 0x1_0000)))
    && (genre != [] ==> all[g] == Property(0, GENRE, Text(genre)))
    && all[f] == Property(0, OBJECT_FILENAME, Text(filename))
  }

  method CreateTrackList(artist: Artist, name: bytes, trackIndex: int, genre: bytes, filename: bytes) returns (r: Result<bytes, Error>)
    ensures r == EncodeList(TrackList(artist, name, trackIndex, genre, filename))
    ensures r.Ok? && TrackOk(artist, name, genre, filename) ==>
      ReadWhole(r.value) && SaysTrack(Entries(r.value), artist, name, trackIndex, genre, filename)
  {
    hide Holds, ReadWhole, Entries, SaysTrack, TrackOk, EncodeList;
    TrackSays(artist, name, trackIndex, genre, filename);
    ghost var all := TrackList(artist, name, trackIndex, genre, filename);
    assert TrackEntries(all, artist, name, trackIndex, genre, filename);
    var stream := Begin(3 + (if genre != [] then 1 else 0) + (if trackIndex != 0 then 1 else 0));
    r := WriteTrack(stream, artist, name, trackIndex, genre, filename, all);
  }

  method WriteTrack(stream: OutputStream, artist: Artist, name: bytes, trackIndex: int, genre: bytes, filename: bytes,
                    ghost all: seq<Property>) returns (r: Result<bytes, Error>)
    requires TrackEntries(all, artist, name, trackIndex, genre, filename) && Holds(stream.data, |all|, [])
    modifies stream
    ensures r == EncodeList(all)
  {
    var _ :- WriteArtist(stream, artist, all);
    var _ :- WriteText(stream, NAME, name, all, 1);
    ghost var k := 2;
    if trackIndex != 0 {
      WriteNumber(stream, TRACK, UINT16, trackIndex % 0x1_0000, all, k);
      k := 3;
    }
    if genre != [] {
      var _ :- WriteText(stream, GENRE, genre, all, k);
      k := k + 1;
    }
    var _ :- WriteText(stream, OBJECT_FILENAME, filename, all, k);
    r := Finish(stream, all);
  }

  function PlaylistList(name: bytes, filenameSupported: bool): seq<Property> {
    [Property(0, NAME, Text(name))] + if filenameSupported then [Property(0, OBJECT_FILENAME, Text(name + PL))] else []
  }

  method CreatePlaylistList(name: bytes, filenameSupported: bool) returns (r: Result<bytes, Error>)
    ensures r == EncodeList(PlaylistList(name, filenameSupported))
    ensures r.Ok? && PlaylistOk(name, filenameSupported) ==>
      ReadWhole(r.value) && SaysPlaylist(Entries(r.value), name, filenameSupported)
  {
    hide Holds, ReadWhole, Entries, SaysPlaylist, PlaylistOk, EncodeList;
    PlaylistSays(name, filenameSupported);
    var stream := Begin(if filenameSupported then 2 else 1);
    r := WritePlaylist(stream, name, filenameSupported, PlaylistList(name, filenameSupported));
  }

  method WritePlaylist(stream: OutputStream, name: bytes, filenameSupported: bool, ghost all: seq<Property>) returns (r: Result<bytes, Error>)
    requires |all| == (if filenameSupported then 2 else 1) && all[0] == Property(0, NAME, Text(name))
    requires filenameSupported ==> all[1] == Property(0, OBJECT_FILENAME, Text(name + PL))
    requires Holds(stream.data, |all|, [])
    modifies stream
    ensures r == EncodeList(all)
  {
    assert all[..0] == [];
    var _ :- WriteText(stream, NAME, name, all, 0);
    if filenameSupported {
      var _ :- WriteText(stream, OBJECT_FILENAME, name + PL, all, 1);
    }
    r := Finish(stream, all);
  }

  // -- What the built lists say ------------------------------------------------------

  lemma {:induction false} TextsConcat(a: seq<Property>, b: seq<Property>, code: nat)
    ensures Texts(a + b, code) == Texts(a, code) + Texts(b, code)
  {
    hide TextOf;
    if a == [] {
      assert a + b == b;
    } else {
      TextsConcat(a[1..], b, code);
      assert (a + b)[0] == a[0] && (a + b)[1..] == a[1..] + b;
      Associative(TextOf(a[0], code), Texts(a[1..], code), Texts(b, code));
    }
  }

  lemma {:induction false} NumbersConcat(a: seq<Property>, b: seq<Property>, code: nat)
    ensures Numbers(a + b, code) == Numbers(a, code) + Numbers(b, code)
  {
    hide NumberOf;
    if a == [] {
      assert a + b == b;
    } else {
      NumbersConcat(a[1..], b, code);
      assert (a + b)[0] == a[0] && (a + b)[1..] == a[1..] + b;
      Associative(NumberOf(a[0], code), Numbers(a[1..], code), Numbers(b, code));
    }
  }

  lemma SaidByBoth(a: seq<Property>, b: seq<Property>, code: nat)
    ensures Texts(a + b, code) == Texts(a, code) + Texts(b, code)
    ensures Numbers(a + b, code) == Numbers(a, code) + Numbers(b, code)
  {
    TextsConcat(a, b, code);
    NumbersConcat(a, b, code);
  }

  lemma SaidByOne(p: Property, code: nat)
    ensures Texts([p], code) == TextOf(p, code) && Numbers([p], code) == NumberOf(p, code)
  {
    assert [p][1..] == [];
    assert Texts([p], code) == TextOf(p, code) + [] && Numbers([p], code) == NumberOf(p, code) + [];
  }

  /** One entry in front of others. */
  lemma SaidByCons(p: Property, ps: seq<Property>, code: nat)
    ensures Texts([p] + ps, code) == TextOf(p, code) + Texts(ps, code)
    ensures Numbers([p] + ps, code) == NumberOf(p, code) + Numbers(ps, code)
  {
    SaidByBoth([p], ps, code);
    SaidByOne(p, code);
  }

  lemma AsReadConcat(a: seq<Property>, b: seq<Property>)
    ensures AllAsRead(a + b) == AllAsRead(a) + AllAsRead(b)
  {
  }

  lemma CountedConcat(a: seq<Property>, b: seq<Property>)
    ensures AllCounted(a + b) <==> AllCounted(a) && AllCounted(b)
  {
    assert forall p :: p in a + b <==> p in a || p in b;
  }

  /** Of a built list, the parser sees the entries as they read back, to the last byte. */
  lemma BuiltIsRead(ps: seq<Property>)
    requires AllCounted(ps) && |ps| < 0x1_0000_0000
    ensures EncodeList(ps).Ok? && ReadWhole(EncodeList(ps).value) && Entries(EncodeList(ps).value) == AllAsRead(ps)
  {
    ListRoundTrip(Typed, ps);
    WholePrefix(Typed, AllAsRead(ps));
  }

  lemma FolderSays(name: bytes)
    ensures AllCounted(FolderList(name)) <==> TextOk(name)
    ensures TextOk(name) ==>
      && EncodeList(FolderList(name)).Ok?
      && ReadWhole(EncodeList(FolderList(name)).value) && SaysFolder(Entries(EncodeList(FolderList(name)).value), name)
  {
    hide EncodeList, ReadWhole, Entries, Encode, WellCounted;
    var f := Property(0, OBJECT_FILENAME, Text(name));
    assert AllAsRead([f]) == [AsRead(f)];
    if TextOk(name) {
      BuiltIsRead([f]);
      SaidByOne(AsRead(f), 0xdc07);
    }
    assert f in [f];
  }

  /** Two entries. */
  lemma SaidByTwo(p: Property, q: Property, code: nat)
    ensures Texts([p, q], code) == TextOf(p, code) + TextOf(q, code)
    ensures Numbers([p, q], code) == NumberOf(p, code) + NumberOf(q, code)
  {
    SaidByCons(p, [q], code);
    SaidByOne(q, code);
    assert [p] + [q] == [p, q];
  }

  lemma ArtistSays(name: bytes)
    ensures AllCounted(ArtistList(name)) <==> ArtistOk(name)
    ensures ArtistOk(name) ==>
      && EncodeList(ArtistList(name)).Ok?
      && ReadWhole(EncodeList(ArtistList(name)).value) && SaysArtist(Entries(EncodeList(ArtistList(name)).value), name)
  {
    hide EncodeList, ReadWhole, Entries, Encode, WellCounted;
    var n, f := Property(0, NAME, Text(name)), Property(0, OBJECT_FILENAME, Text(name + ART));
    assert AllAsRead([n, f]) == [AsRead(n), AsRead(f)];
    if ArtistOk(name) {
      BuiltIsRead([n, f]);
      SaidByTwo(AsRead(n), AsRead(f), 0xdc44);
      SaidByTwo(AsRead(n), AsRead(f), 0xdc07);
    }
    assert n in [n, f] && f in [n, f];
  }

  lemma PlaylistSays(name: bytes, filenameSupported: bool)
    ensures var all := PlaylistList(name, filenameSupported);
      && (AllCounted(all) <==> PlaylistOk(name, filenameSupported))
      && (PlaylistOk(name, filenameSupported) ==>
            EncodeList(all).Ok? && ReadWhole(EncodeList(all).value) && SaysPlaylist(Entries(EncodeList(all).value), name, filenameSupported))
  {
    hide EncodeList, ReadWhole, Entries, TextOk, Recoded, Texts, Numbers, Counted;
    var n, f := Property(0, NAME, Text(name)), Property(0, OBJECT_FILENAME, Text(name + PL));
    var all := PlaylistList(name, filenameSupported);
    TextCounted(NAME, name);
    TextCounted(OBJECT_FILENAME, name + PL);
    if filenameSupported {
      assert all == [n, f] && all[0] in all && all[1] in all;
      assert AllAsRead(all) == [AsRead(n), AsRead(f)];
      SaidByTwo(AsRead(n), AsRead(f), 0xdc44);
      SaidByTwo(AsRead(n), AsRead(f), 0xdc07);
    } else {
      assert all == [n] && all[0] in all && AllAsRead(all) == [AsRead(n)];
      SaidByOne(AsRead(n), 0xdc44);
      SaidByOne(AsRead(n), 0xdc07);
    }
    if AllCounted(all) {
      BuiltIsRead(all);
    }
  }

  /** One or no entry more. */
  function Maybe(sent: bool, p: Property): seq<Property> {
    if sent then [p] else []
  }

  lemma SaidByMaybe(sent: bool, p: Property, code: nat)
    ensures Texts(Maybe(sent, p), code) == (if sent then TextOf(p, code) else [])
    ensures Numbers(Maybe(sent, p), code) == (if sent then NumberOf(p, code) else [])
  {
    if sent {
      SaidByOne(p, code);
    }
  }

  lemma SaidByThree(p: Property, q: Property, f: Property, rest: seq<Property>, code: nat)
    ensures Texts([p, q, f] + rest, code) == TextOf(p, code) + TextOf(q, code) + TextOf(f, code) + Texts(rest, code)
    ensures Numbers([p, q, f] + rest, code) == NumberOf(p, code) + NumberOf(q, code) + NumberOf(f, code) + Numbers(rest, code)
  {
    hide Texts, Numbers, TextOf, NumberOf;
    SaidByTwo(p, q, code);
    SaidByOne(f, code);
    assert [p, q, f] == [p, q] + [f];
    SaidByBoth([p, q], [f], code);
    SaidByBoth([p, q, f], rest, code);
  }

  lemma ArtistEntryIs(artist: Artist)
    ensures Counted(ArtistEntry(artist)) <==> NamedOk(artist)
    ensures AsRead(ArtistEntry(artist)) == if artist.supported then ArtistEntry(artist) else Property(0, ARTIST, Text(Recoded(artist.name)))
  {
    Pow256Values();
  }

  /** The entries of an album as they are read. */
  function AlbumRead(artist: Artist, name: bytes, filename: bytes, sent: bool, date: bytes): seq<Property> {
    [AsRead(ArtistEntry(artist)), Property(0, NAME, Text(Recoded(name))), Property(0, OBJECT_FILENAME, Text(Recoded(filename)))]
    + Maybe(sent, Property(0, DATE_AUTHORED, Text(Recoded(date))))
  }

  lemma AlbumSaidOf(artist: Artist, name: bytes, filename: bytes, sent: bool, date: bytes, code: nat)
    ensures Texts(AlbumRead(artist, name, filename, sent, date), code)
         == if code == ARTIST && !artist.supported then [Recoded(artist.name)]
            else if code == NAME then [Recoded(name)]
            else if code == OBJECT_FILENAME then [Recoded(filename)]
            else if code == DATE_AUTHORED && sent then [Recoded(date)]
            else []
    ensures Numbers(AlbumRead(artist, name, filename, sent, date), code)
         == if code == ARTIST_ID && artist.supported then [artist.id] else []
  {
    hide Texts, Numbers, AsRead, Recoded;
    var a, n, f := AsRead(ArtistEntry(artist)), Property(0, NAME, Text(Recoded(name))), Property(0, OBJECT_FILENAME, Text(Recoded(filename)));
    var d := Property(0, DATE_AUTHORED, Text(Recoded(date)));
    ArtistEntryIs(artist);
    SaidByThree(a, n, f, Maybe(sent, d), code);
    SaidByMaybe(sent, d, code);
  }

  lemma AlbumAllNew(artist: Artist, name: bytes, filename: bytes, sent: bool, date: bytes)
    ensures var es := AlbumRead(artist, name, filename, sent, date); |es| == (if sent then 4 else 3) && AllNew(es)
  {
    ArtistEntryIs(artist);
  }

  lemma AlbumSaid(artist: Artist, name: bytes, year: int, dateSupported: bool, date: bytes)
    ensures SaysAlbum(AlbumRead(artist, name, AlbumFile(artist.name, name), year != 0 && dateSupported, date),
                      artist, name, year, dateSupported, date)
  {
    hide Texts, Numbers, AlbumRead, AllNew, Recoded;
    var file, sent := AlbumFile(artist.name, name), year != 0 && dateSupported;
    AlbumAllNew(artist, name, file, sent, date);
    AlbumSaidOf(artist, name, file, sent, date, 0xdab9);
    AlbumSaidOf(artist, name, file, sent, date, 0xdc46);
    AlbumSaidOf(artist, name, file, sent, date, 0xdc44);
    AlbumSaidOf(artist, name, file, sent, date, 0xdc07);
    AlbumSaidOf(artist, name, file, sent, date, 0xdc47);
  }

  lemma AlbumSays(artist: Artist, name: bytes, year: int, dateSupported: bool, date: bytes)
    ensures var all := AlbumList(artist, name, year, dateSupported, date);
      && (AllCounted(all) <==> AlbumOk(artist, name, year, dateSupported, date))
      && (AlbumOk(artist, name, year, dateSupported, date) ==>
            && EncodeList(all).Ok? && ReadWhole(EncodeList(all).value)
            && SaysAlbum(Entries(EncodeList(all).value), artist, name, year, dateSupported, date))
  {
    hide EncodeList, ReadWhole, Entries, Recoded, AllCounted, Counted, Texts, Numbers, TextOk;
    var all, sent := AlbumList(artist, name, year, dateSupported, date), year != 0 && dateSupported;
    var a, n, f := ArtistEntry(artist), Property(0, NAME, Text(name)), Property(0, OBJECT_FILENAME, Text(AlbumFile(artist.name, name)));
    var d := Property(0, DATE_AUTHORED, Text(date));
    assert all == [a, n, f] + Maybe(sent, d);
    AlbumCounted(artist, n, f, sent, d);
    TextCounted(NAME, name);
    TextCounted(OBJECT_FILENAME, AlbumFile(artist.name, name));
    TextCounted(DATE_AUTHORED, date);
    ArtistEntryIs(artist);
    AsReadConcat([a, n, f], Maybe(sent, d));
    assert AllAsRead([a, n, f]) == [AsRead(a), AsRead(n), AsRead(f)] && AllAsRead(Maybe(sent, d)) == Maybe(sent, AsRead(d));
    if AllCounted(all) {
      BuiltIsRead(all);
      AlbumSaid(artist, name, year, dateSupported, date);
    }
  }

  lemma AlbumCounted(artist: Artist, n: Property, f: Property, sent: bool, d: Property)
    ensures AllCounted([ArtistEntry(artist), n, f] + Maybe(sent, d))
       <==> NamedOk(artist) && Counted(n) && Counted(f) && (sent ==> Counted(d))
  {
    hide Counted;
    var all := [ArtistEntry(artist), n, f] + Maybe(sent, d);
    ArtistEntryIs(artist);
    assert all[0] == ArtistEntry(artist) && all[1] == n && all[2] == f && (sent ==> all[3] == d);
    assert forall p | p in all :: p in [ArtistEntry(artist), n, f] || p in Maybe(sent, d);
  }

  lemma SaidByTrack(a: Property, n: Property, indexed: bool, i: Property, styled: bool, g: Property, f: Property, code: nat)
    ensures var es := [a, n] + Maybe(indexed, i) + Maybe(styled, g) + [f];
      && Texts(es, code) == TextOf(a, code) + TextOf(n, code) + (if indexed then TextOf(i, code) else [])
                            + (if styled then TextOf(g, code) else []) + TextOf(f, code)
      && Numbers(es, code) == NumberOf(a, code) + NumberOf(n, code) + (if indexed then NumberOf(i, code) else [])
                              + (if styled then NumberOf(g, code) else []) + NumberOf(f, code)
  {
    hide Texts, Numbers, TextOf, NumberOf;
    SaidByTwo(a, n, code);
    SaidByMaybe(indexed, i, code);
    SaidByMaybe(styled, g, code);
    SaidByOne(f, code);
    SaidByBoth([a, n], Maybe(indexed, i), code);
    SaidByBoth([a, n] + Maybe(indexed, i), Maybe(styled, g), code);
    SaidByBoth([a, n] + Maybe(indexed, i) + Maybe(styled, g), [f], code);
  }

  lemma TrackCounted(artist: Artist, n: Property, indexed: bool, i: Property, styled: bool, g: Property, f: Property)
    ensures AllCounted([ArtistEntry(artist), n] + Maybe(indexed, i) + Maybe(styled, g) + [f])
       <==> NamedOk(artist) && Counted(n) && (indexed ==> Counted(i)) && (styled ==> Counted(g)) && Counted(f)
  {
    hide Counted;
    var head := [ArtistEntry(artist), n];
    ArtistEntryIs(artist);
    CountedConcat(head, Maybe(indexed, i));
    CountedConcat(head + Maybe(indexed, i), Maybe(styled, g));
    CountedConcat(head + Maybe(indexed, i) + Maybe(styled, g), [f]);
    assert head[0] in head && head[1] in head;
    assert [i][0] == i && [g][0] == g && [f][0] == f;
  }

  lemma TrackAsRead(a: Property, n: Property, indexed: bool, i: Property, styled: bool, g: Property, f: Property)
    ensures AllAsRead([a, n] + Maybe(indexed, i) + Maybe(styled, g) + [f])
         == [AsRead(a), AsRead(n)] + Maybe(indexed, AsRead(i)) + Maybe(styled, AsRead(g)) + [AsRead(f)]
  {
    AsReadConcat([a, n], Maybe(indexed, i));
    AsReadConcat([a, n] + Maybe(indexed, i), Maybe(styled, g));
    AsReadConcat([a, n] + Maybe(indexed, i) + Maybe(styled, g), [f]);
    assert AllAsRead([a, n]) == [AsRead(a), AsRead(n)] && AllAsRead([f]) == [AsRead(f)];
    assert AllAsRead(Maybe(indexed, i)) == Maybe(indexed, AsRead(i)) && AllAsRead(Maybe(styled, g)) == Maybe(styled, AsRead(g));
  }

  lemma EmptyTextOk()
    ensures TextOk([])
  {
  }

  /** The entries of a track as they are read. */
  function TrackRead(artist: Artist, name: bytes, trackIndex: int, genre: bytes, filename: bytes): seq<Property> {
    [AsRead(ArtistEntry(artist)), Property(0, NAME, Text(Recoded(name)))]
    + Maybe(trackIndex != 0, Property(0, TRACK, Number(UINT16, trackIndex % 0x1_0000)))
    + Maybe(genre != [], Property(0, GENRE, Text(Recoded(genre)))) + [Property(0, OBJECT_FILENAME, Text(Recoded(filename)))]
  }

  lemma TrackSaidOf(artist: Artist, name: bytes, trackIndex: int, genre: bytes, filename: bytes, code: nat)
    ensures Texts(TrackRead(artist, name, trackIndex, genre, filename), code)
         == if code == ARTIST && !artist.supported then [Recoded(artist.name)]
            else if code == NAME then [Recoded(name)]
            else if code == GENRE && genre != [] then [Recoded(genre)]
            else if code == OBJECT_FILENAME then [Recoded(filename)]
            else []
    ensures Numbers(TrackRead(artist, name, trackIndex, genre, filename), code)
         == if code == ARTIST_ID && artist.supported then [artist.id]
            else if code == TRACK && trackIndex != 0 then [trackIndex % 0x1_0000]
            else []
  {
    hide Texts, Numbers, AsRead, Recoded;
    var a, n, f := AsRead(ArtistEntry(artist)), Property(0, NAME, Text(Recoded(name))), Property(0, OBJECT_FILENAME, Text(Recoded(filename)));
    var i, g := Property(0, TRACK, Number(UINT16, trackIndex % 0x1_0000)), Property(0, GENRE, Text(Recoded(genre)));
    ArtistEntryIs(artist);
    SaidByTrack(a, n, trackIndex != 0, i, genre != [], g, f, code);
  }

  lemma TrackAllNew(artist: Artist, name: bytes, trackIndex: int, genre: bytes, filename: bytes)
    ensures var es := TrackRead(artist, name, trackIndex, genre, filename);
      |es| == 3 + (if trackIndex != 0 then 1 else 0) + (if genre != [] then 1 else 0) && AllNew(es)
  {
    ArtistEntryIs(artist);
  }

  lemma TrackSaid(artist: Artist, name: bytes, trackIndex: int, genre: bytes, filename: bytes)
    ensures SaysTrack(TrackRead(artist, name, trackIndex, genre, filename), artist, name, trackIndex, genre, filename)
  {
    hide Texts, Numbers, TrackRead, AllNew, Recoded;
    TrackAllNew(artist, name, trackIndex, genre, filename);
    TrackSaidOf(artist, name, trackIndex, genre, filename, 0xdab9);
    TrackSaidOf(artist, name, trackIndex, genre, filename, 0xdc46);
    TrackSaidOf(artist, name, trackIndex, genre, filename, 0xdc44);
    TrackSaidOf(artist, name, trackIndex, genre, filename, 0xdc8b);
    TrackSaidOf(artist, name, trackIndex, genre, filename, 0xdc8c);
    TrackSaidOf(artist, name, trackIndex, genre, filename, 0xdc07);
  }

  lemma TrackSays(artist: Artist, name: bytes, trackIndex: int, genre: bytes, filename: bytes)
    ensures var all := TrackList(artist, name, trackIndex, genre, filename);
      && (AllCounted(all) <==> TrackOk(artist, name, genre, filename))
      && (TrackOk(artist, name, genre, filename) ==>
            && EncodeList(all).Ok? && ReadWhole(EncodeList(all).value)
            && SaysTrack(Entries(EncodeList(all).value), artist, name, trackIndex, genre, filename))
  {
    hide EncodeList, ReadWhole, Entries, Recoded, AllCounted, Texts, Numbers, TextOk;
    var all, indexed, styled := TrackList(artist, name, trackIndex, genre, filename), trackIndex != 0, genre != [];
    var a, n, f := ArtistEntry(artist), Property(0, NAME, Text(name)), Property(0, OBJECT_FILENAME, Text(filename));
    var i, g := Property(0, TRACK, Number(UINT16, trackIndex % 0x1_0000)), Property(0, GENRE, Text(genre));
    assert all == [a, n] + Maybe(indexed, i) + Maybe(styled, g) + [f];
    TrackCounted(artist, n, indexed, i, styled, g, f);
    TextCounted(NAME, name);
    TextCounted(GENRE, genre);
    TextCounted(OBJECT_FILENAME, filename);
    EmptyTextOk();
    ArtistEntryIs(artist);
    IndexCounted(i);
    if AllCounted(all) {
      BuiltIsRead(all);
      TrackAsRead(a, n, indexed, i, styled, g, f);
      TrackSaid(artist, name, trackIndex, genre, filename);
    }
  }

  lemma IndexCounted(p: Property)
    requires p.object_ == 0 && p.code < 0x1_0000 && p.value.Number? && p.value.dataType == UINT16 && p.value.number < 0x1_0000
    ensures Counted(p)
  {
    Pow256Values();
  }

  lemma TextCounted(code: u16, s: bytes)
    ensures Counted(Property(0, code, Text(s))) <==> TextOk(s)
  {
  }
  // -- Which lists read back -------------------------------------------------------

  /** A reader makes well-formed texts only. */
  lemma {:induction false} TextsReadAreWellFormed(parser: Parser, data: bytes, at: nat, n: nat)
    ensures forall p | p in EntriesFrom(Reader(parser, data), at, n).entries :: p.value.Text? ==> WellFormed(p.value.text)
    decreases n
  {
    if n > 0 && EntryAt(parser, data, at).Ok? {
      var (p, end) := EntryAt(parser, data, at).value;
      TextsReadAreWellFormed(parser, data, end, n - 1);
      if p.value.Text? {
        TextIsWellFormed(parser, data, at);
      }
    }
  }

  lemma EntriesAreWellFormed(data: bytes)
    ensures forall p | p in Entries(data) && p.value.Text? :: WellFormed(p.value.text)
  {
    if NumberAt(data, 0, 4).Ok? {
      TextsReadAreWellFormed(Typed, data, 4, NumberAt(data, 0, 4).value);
    }
  }

  lemma {:induction false} TextForIsWellFormed(ps: seq<Property>, code: nat)
    requires forall p | p in ps && p.value.Text? :: WellFormed(p.value.text)
    ensures WellFormed(TextFor(ps, code))
  {
    if ps != [] {
      TextForIsWellFormed(ps[1..], code);
    }
  }

  /** So a device only has names that read. */
  lemma TextForWellFormed(data: bytes, code: nat)
    ensures WellFormed(TextFor(Entries(data), code))
  {
    EntriesAreWellFormed(data);
    TextForIsWellFormed(Entries(data), code);
  }

  lemma TextIsWellFormed(parser: Parser, data: bytes, at: nat)
    requires EntryAt(parser, data, at).Ok? && EntryAt(parser, data, at).value.0.value.Text?
    ensures WellFormed(EntryAt(parser, data, at).value.0.value.text)
  {
    DecodedIsWellFormed(UnitsAt(data, at + 8).value.0);
  }

  lemma {:induction false} AllEncode(ps: seq<Property>)
    requires EncodeAll(ps).Ok?
    ensures forall p | p in ps :: EncodeValue(p.value).Ok?
  {
    if ps != [] {
      AllEncode(ps[1..]);
      assert forall p | p in ps :: p == ps[0] || p in ps[1..];
    }
  }

  lemma AllSendableIff(ps: seq<Property>)
    requires AllInRange(ps) && EncodeAll(ps).Ok?
    ensures AllSendable(ps) <==> AllCounted(ps) && AllAsRead(ps) == ps
  {
    AllEncode(ps);
    forall i | 0 <= i < |ps|
      ensures Sendable(ps[i]) <==> Counted(ps[i]) && AllAsRead(ps)[i] == ps[i]
    {
      assert ps[i] in ps;
      SendableIff(ps[i]);
    }
    if AllSendable(ps) {
      forall i | 0 <= i < |ps|
        ensures Counted(ps[i]) && AllAsRead(ps)[i] == ps[i]
      {
        assert ps[i] in ps;
      }
    }
  }

  /** Exactly the lists whose strings are portable read back as they were built, entry by entry and
      to the last byte; those whose strings are only well counted read back with these changed.
      As strings a list reads back if besides it holds no number. */
  lemma BuiltListReads(ps: seq<Property>)
    requires AllInRange(ps) && |ps| < 0x1_0000_0000 && EncodeList(ps).Ok?
    ensures var data := EncodeList(ps).value;
      && NumberAt(data, 0, 4) == Ok(|ps|)
      && (AllCounted(ps) ==> ParseOf(Typed, data) == Parsed(AllAsRead(ps), Ok(|data|)))
      && (ParseOf(Typed, data) == Parsed(ps, Ok(|data|)) <==> AllSendable(ps))
      && (ParseOf(Strings, data) == Parsed(ps, Ok(|data|)) <==> AllSendable(ps) && forall p | p in ps :: p.value.Text?)
  {
    var data := EncodeList(ps).value;
    Pow256Values();
    NumberRoundTrip([], |ps|, 4, EncodeAll(ps).value);
    assert [] + LeBytes(|ps|, 4) == LeBytes(|ps|, 4);
    AllSendableIff(ps);
    if AllCounted(ps) {
      ListRoundTrip(Typed, ps);
      ListRoundTrip(Strings, ps);
      WholePrefix(Typed, AllAsRead(ps));
      WholePrefix(Strings, AllAsRead(ps));
      SameKinds(Strings, ps);
    }
    OnlySendableReads(Typed, ps, data);
    OnlySendableReads(Strings, ps, data);
  }

  lemma OnlySendableReads(parser: Parser, ps: seq<Property>, data: bytes)
    requires AllInRange(ps) && |ps| < 0x1_0000_0000 && EncodeList(ps) == Ok(data) && NumberAt(data, 0, 4) == Ok(|ps|)
    ensures ParseOf(parser, data).entries == ps ==> AllSendable(ps)
    ensures parser == Strings && ParseOf(parser, data) == Parsed(ps, Ok(|data|)) ==> forall p | p in ps :: p.value.Text?
  {
    TextsReadAreWellFormed(parser, data, 4, |ps|);
    OnlyTexts(data, 4, |ps|);
    AllEncode(ps);
    if ParseOf(parser, data).entries == ps {
      forall p | p in ps
        ensures Sendable(p)
      {
      }
    }
  }

  lemma {:induction false} OnlyTexts(data: bytes, at: nat, n: nat)
    ensures forall p | p in EntriesFrom(Reader(Strings, data), at, n).entries :: p.value.Text?
    decreases n
  {
    if n > 0 && EntryAt(Strings, data, at).Ok? {
      OnlyTexts(data, EntryAt(Strings, data, at).value.1, n - 1);
    }
  }
}
