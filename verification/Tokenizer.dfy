/** The command-line lexer (cli/arg_lexer.l, cli/arg_lexer.l.cpp, cli/Tokenizer.cpp) and the
    Python quoting it has to undo (tools/jellyfin-sync/jellyfin_sync/device.py). Text is
    bytes; every rule tests ASCII characters only. */
module Tokenizer {
  import opened Bytes

  type text = seq<char>

  const QUOTE := '\"'
  const BACKSLASH := '\\'

  // -- The rules, in the order of the lexer's source -------------------------

  datatype Mode = Initial | String

  datatype Rule =
    | OpenQuote | EscapedN | EscapedT | EscapedF | EscapedR | EscapedB | EscapedAny | CloseQuote | Run
    | EscapedSpace | Spaces | Any

  /** The position of a rule in the lexer's source. */
  function Rank(rule: Rule): nat {
    match rule
    case OpenQuote => 0
    case EscapedN => 1
    case EscapedT => 2
    case EscapedF => 3
    case EscapedR => 4
    case EscapedB => 5
    case EscapedAny => 6
    case CloseQuote => 7
    case Run => 8
    case EscapedSpace => 9
    case Spaces => 10
    case Any => 11
  }

  predicate IsSpace(c: char) {
    c == ' ' || '\t' <= c <= '\r'
  }

  predicate IsSpecial(c: char) {
    c == QUOTE || c == BACKSLASH
  }

  function SpaceLength(s: text): (n: nat)
    ensures n <= |s|
  {
    if s == [] || !IsSpace(s[0]) then 0 else 1 + SpaceLength(s[1..])
  }

  /** The longest start without quotes and backslashes. */
  function PlainLength(s: text): (n: nat)
    ensures n <= |s|
  {
    if s == [] || IsSpecial(s[0]) then 0 else 1 + PlainLength(s[1..])
  }

  predicate Escapes(s: text, c: char) {
    |s| >= 2 && s[0] == BACKSLASH && s[1] == c
  }

  /** How much of s a rule matches in a mode; 0 means not at all. */
  function MatchLength(rule: Rule, mode: Mode, s: text): (n: nat)
    ensures n <= |s|
  {
    match rule
    case OpenQuote => if mode == Initial && s != [] && s[0] == QUOTE then 1 else 0
    case EscapedN => if mode == String && Escapes(s, 'n') then 2 else 0
    case EscapedT => if mode == String && Escapes(s, 't') then 2 else 0
    case EscapedF => if mode == String && Escapes(s, 'f') then 2 else 0
    case EscapedR => if mode == String && Escapes(s, 'r') then 2 else 0
    case EscapedB => if mode == String && Escapes(s, 'b') then 2 else 0
    case EscapedAny => if mode == String && |s| >= 2 && s[0] == BACKSLASH && s[1] != '\n' then 2 else 0
    case CloseQuote => if mode == String && s != [] && s[0] == QUOTE then 1 else 0
    case Run => if mode == String then PlainLength(s) else 0
    case EscapedSpace => if mode == Initial && Escapes(s, ' ') then 2 else 0
    case Spaces => if mode == Initial then SpaceLength(s) else 0
    case Any => if s != [] && s[0] != '\n' then 1 else 0
  }

  /** The generated scanner's choice: the longest match, and among equals the first rule. */
  ghost predicate LongestFirst(mode: Mode, s: text, rule: Rule) {
    && MatchLength(rule, mode, s) > 0
    && forall q: Rule :: Loses(q, rule, mode, s)
  }

  predicate Loses(q: Rule, rule: Rule, mode: Mode, s: text) {
    && MatchLength(q, mode, s) <= MatchLength(rule, mode, s)
    && (Rank(q) < Rank(rule) ==> MatchLength(q, mode, s) < MatchLength(rule, mode, s))
  }

  /** The same choice, decided by the first two characters. */
  function Chosen(mode: Mode, s: text): (r: (Rule, nat))
    requires s != []
    ensures 0 < r.1 <= |s| && (r.0 == EscapedAny ==> r.1 == 2)
  {
    if mode == Initial then
      if s[0] == QUOTE then (OpenQuote, 1)
      else if IsSpace(s[0]) then (Spaces, SpaceLength(s))
      else if Escapes(s, ' ') then (EscapedSpace, 2)
      else (Any, 1)
    else if s[0] == QUOTE then (CloseQuote, 1)
    else if s[0] != BACKSLASH then (Run, PlainLength(s))
    else if |s| == 1 || s[1] == '\n' then (Any, 1)
    else if s[1] == 'n' then (EscapedN, 2)
    else if s[1] == 't' then (EscapedT, 2)
    else if s[1] == 'f' then (EscapedF, 2)
    else if s[1] == 'r' then (EscapedR, 2)
    else if s[1] == 'b' then (EscapedB, 2)
    else (EscapedAny, 2)
  }

  /** In every mode and at every text some rule matches, so the generated default rule is dead;
      the rule chosen is the longest and first, and the only one that is. */
  lemma ChosenIsLongestFirst(mode: Mode, s: text)
    requires s != []
    ensures Chosen(mode, s).1 == MatchLength(Chosen(mode, s).0, mode, s)
    ensures forall rule: Rule :: LongestFirst(mode, s, rule) <==> rule == Chosen(mode, s).0
  {
    var best := Chosen(mode, s).0;
    forall q: Rule
      ensures Loses(q, best, mode, s)
    {
      if mode == Initial {
        ChosenInitial(s, q);
      } else {
        ChosenString(s, q);
      }
    }
    assert LongestFirst(mode, s, best);
    forall rule: Rule | LongestFirst(mode, s, rule)
      ensures rule == best
    {
      assert Loses(best, rule, mode, s) && Loses(rule, best, mode, s);
      SameRank(rule, best);
    }
  }

  lemma ChosenInitial(s: text, q: Rule)
    requires s != []
    ensures Loses(q, Chosen(Initial, s).0, Initial, s)
  {
  }

  lemma ChosenString(s: text, q: Rule)
    requires s != []
    ensures Loses(q, Chosen(String, s).0, String, s)
  {
  }

  lemma SameRank(a: Rule, b: Rule)
    requires Rank(a) == Rank(b)
    ensures a == b
  {
  }

  // -- The lexer -------------------------------------------------------------

  datatype Lexer = Lexer(mode: Mode, temp: text, tokens: seq<text>)

  function NextArgument(l: Lexer): Lexer {
    if l.temp == [] then l else l.(temp := [], tokens := l.tokens + [l.temp])
  }

  /** The action of a rule on the text it matched. */
  function Act(rule: Rule, l: Lexer, matched: text): Lexer
    requires matched != [] && (rule == EscapedAny ==> |matched| == 2)
  {
    match rule
    case OpenQuote => l.(mode := String)
    case EscapedN => l.(temp := l.temp + ['\n'])
    case EscapedT => l.(temp := l.temp + ['\t'])
    case EscapedF => l.(temp := l.temp + [12 as char])
    case EscapedR => l.(temp := l.temp + ['\r'])
    case EscapedB => l.(temp := l.temp + [8 as char])
    case EscapedAny => l.(temp := l.temp + [matched[1]])
    case CloseQuote => l.(mode := Initial)
    case Run => l.(temp := l.temp + matched)
    case EscapedSpace => l.(temp := l.temp + [' '])
    case Spaces => NextArgument(l)
    case Any => l.(temp := l.temp + [matched[0]])
  }

  /** Lexing s to its end. */
  function Lex(l: Lexer, s: text): Lexer
    decreases |s|
  {
    if s == [] then l
    else
      var (rule, n) := Chosen(l.mode, s);
      Lex(Act(rule, l, s[..n]), s[n..])
  }

  lemma LexOne(l: Lexer, s: text, rule: Rule, n: nat)
    requires s != [] && Chosen(l.mode, s) == (rule, n)
    ensures Lex(l, s) == Lex(Act(rule, l, s[..n]), s[n..])
  {
  }

  /** One step from inside a text. */
  lemma LexNext(l: Lexer, s: text, at: nat, rule: Rule, n: nat)
    requires at < |s| && Chosen(l.mode, s[at..]) == (rule, n)
    ensures Lex(l, s[at..]) == Lex(Act(rule, l, s[at..at + n]), s[at + n..])
  {
    LexOne(l, s[at..], rule, n);
    assert s[at..][n..] == s[at + n..] && s[at..][..n] == s[at..at + n];
  }

  const START := Lexer(Initial, [], [])

  function Tokens(s: text): seq<text> {
    NextArgument(Lex(START, s)).tokens
  }

  class Tokenizer {
    const text_: text
    var mode: Mode
    var tempString: text
    var tokens: seq<text>

    function State(): Lexer
      reads this
    {
      Lexer(mode, tempString, tokens)
    }

    /** Tokenizes the text on construction. */
    constructor (s: text)
      ensures tokens == Tokens(s)
    {
      text_ := s;
      mode, tempString, tokens := Initial, [], [];
      new;
      Scan();
      FlushArgument();
    }

    method FlushArgument()
      modifies this
      ensures State() == NextArgument(old(State()))
    {
      if tempString != [] {
        tokens := tokens + [tempString];
        tempString := [];
      }
    }

    /** args_lex: match, act, repeat until the end of the text. */
    method Scan()
      modifies this
      ensures State() == Lex(old(State()), text_)
    {
      var at := 0;
      while at < |text_|
        invariant 0 <= at <= |text_|
        invariant Lex(State(), text_[at..]) == Lex(old(State()), text_)
      {
        var (rule, n) := Chosen(mode, text_[at..]);
        LexNext(State(), text_, at, rule, n);
        Perform(rule, text_[at..at + n]);
        at := at + n;
      }
    }

    method Perform(rule: Rule, matched: text)
      requires matched != [] && (rule == EscapedAny ==> |matched| == 2)
      modifies this
      ensures State() == Act(rule, old(State()), matched)
    {
      match rule {
        case OpenQuote => mode := String;
        case EscapedN => tempString := tempString + ['\n'];
        case EscapedT => tempString := tempString + ['\t'];
        case EscapedF => tempString := tempString + [12 as char];
        case EscapedR => tempString := tempString + ['\r'];
        case EscapedB => tempString := tempString + [8 as char];
        case EscapedAny => tempString := tempString + [matched[1]];
        case CloseQuote => mode := Initial;
        case Run => tempString := tempString + matched;
        case EscapedSpace => tempString := tempString + [' '];
        case Spaces => FlushArgument();
        case Any => tempString := tempString + [matched[0]];
      }
    }
  }

  // -- What the lexer makes of a line -----------------------------------------

  /** A space, or a tab, line feed, vertical tab, form feed or carriage return. */
  predicate IsBlank(c: char) {
    c as int == 32 || 9 <= c as int <= 13
  }

  predicate IsPlain(c: char) {
    c as int != 34 && c as int != 92
  }

  /** A piece of a quoted string. */
  datatype Inner =
    | Same(c: char)          // neither quote nor backslash
    | LineFeed | Tab | FormFeed | Return | Backspace
    | Escaped(c: char)       // any other character behind a backslash, but a line feed
    | BrokenLine             // a backslash and a line feed: both stay

  predicate InnerOk(i: Inner) {
    match i
    case Same(c) => IsPlain(c)
    case Escaped(c) => c !in ['n', 't', 'f', 'r', 'b'] && c as int != 10
    case _ => true
  }

  function InnerText(i: Inner): (s: text)
    ensures s != []
  {
    match i
    case Same(c) => [c]
    case LineFeed => [BACKSLASH, 'n']
    case Tab => [BACKSLASH, 't']
    case FormFeed => [BACKSLASH, 'f']
    case Return => [BACKSLASH, 'r']
    case Backspace => [BACKSLASH, 'b']
    case Escaped(c) => [BACKSLASH, c]
    case BrokenLine => [BACKSLASH, '\n']
  }

  function InnerValue(i: Inner): (v: text)
    ensures |v| == if i.BrokenLine? then 2 else 1
  {
    match i
    case Same(c) => [c]
    case LineFeed => [10 as char]
    case Tab => [9 as char]
    case FormFeed => [12 as char]
    case Return => [13 as char]
    case Backspace => [8 as char]
    case Escaped(c) => [c]
    case BrokenLine => [92 as char, 10 as char]
  }

  function InnersText(inner: seq<Inner>): text {
    if inner == [] then [] else InnerText(inner[0]) + InnersText(inner[1..])
  }

  function InnersValue(inner: seq<Inner>): text {
    if inner == [] then [] else InnerValue(inner[0]) + InnersValue(inner[1..])
  }

  predicate InnersOk(inner: seq<Inner>) {
    forall i | i in inner :: InnerOk(i)
  }

  /** A piece of an argument. */
  datatype Piece =
    | Char(c: char)          // no blank, quote or backslash
    | Space                  // a backslash and a space: the space
    | Literal(c: char)       // a backslash and any other such character: both stay
    | InQuotes(inner: seq<Inner>)

  predicate PieceOk(p: Piece) {
    match p
    case Char(c) => IsPlain(c) && !IsBlank(c)
    case Literal(c) => IsPlain(c) && !IsBlank(c)
    case InQuotes(inner) => InnersOk(inner)
    case Space => true
  }

  function PieceText(p: Piece): (s: text)
    ensures s != []
  {
    match p
    case Char(c) => [c]
    case Space => [BACKSLASH, ' ']
    case Literal(c) => [BACKSLASH, c]
    case InQuotes(inner) => [QUOTE] + InnersText(inner) + [QUOTE]
  }

  function PieceValue(p: Piece): text {
    match p
    case Char(c) => [c]
    case Space => [32 as char]
    case Literal(c) => [92 as char, c]
    case InQuotes(inner) => InnersValue(inner)
  }

  function Written(ps: seq<Piece>): text {
    if ps == [] then [] else PieceText(ps[0]) + Written(ps[1..])
  }

  function Value(ps: seq<Piece>): text {
    if ps == [] then [] else PieceValue(ps[0]) + Value(ps[1..])
  }

  predicate PiecesOk(ps: seq<Piece>) {
    ps != [] && forall p | p in ps :: PieceOk(p)
  }

  /** An argument behind blanks. */
  datatype Word = Word(blanks: text, pieces: seq<Piece>)

  predicate WordOk(w: Word) {
    PiecesOk(w.pieces) && forall c | c in w.blanks :: IsBlank(c)
  }

  /** Only the first argument may do without blanks in front. */
  predicate LineOk(ws: seq<Word>) {
    (forall w | w in ws :: WordOk(w)) && forall i | 0 < i < |ws| :: ws[i].blanks != []
  }

  function Line(ws: seq<Word>): text {
    if ws == [] then [] else ws[0].blanks + Written(ws[0].pieces) + Line(ws[1..])
  }

  function Values(ws: seq<Word>): seq<text> {
    if ws == [] then [] else [Value(ws[0].pieces)] + Values(ws[1..])
  }

  function NonEmpty(vs: seq<text>): seq<text> {
    if vs == [] then [] else (if vs[0] == [] then [] else [vs[0]]) + NonEmpty(vs[1..])
  }

  // Inside quotes.

  /** A run can be taken character by character. */
  lemma LexSame(l: Lexer, c: char, rest: text)
    requires l.mode == String && !IsSpecial(c)
    ensures Lex(l, [c] + rest) == Lex(l.(temp := l.temp + [c]), rest)
  {
    var s, n := [c] + rest, PlainLength(rest);
    assert s[0] == c && s[1..] == rest && PlainLength(s) == 1 + n;
    LexOne(l, s, Run, 1 + n);
    assert s[..1 + n] == [c] + rest[..n] && s[1 + n..] == rest[n..];
    Associative(l.temp, [c], rest[..n]);
    if n > 0 {
      LexOne(l.(temp := l.temp + [c]), rest, Run, n);
    } else {
      assert rest[..0] == [] && rest[0..] == rest;
      assert l.temp + [c] + [] == l.temp + [c];
    }
  }

  lemma LexPair(l: Lexer, c: char, rest: text, rule: Rule)
    requires Chosen(l.mode, [BACKSLASH, c] + rest) == (rule, 2)
    ensures Lex(l, [BACKSLASH, c] + rest) == Lex(Act(rule, l, [BACKSLASH, c]), rest)
  {
    var s := [BACKSLASH, c] + rest;
    LexOne(l, s, rule, 2);
    assert s[..2] == [BACKSLASH, c] && s[2..] == rest;
  }

  /** A backslash that nothing takes is a character. */
  lemma LexBackslash(l: Lexer, rest: text)
    requires Chosen(l.mode, [BACKSLASH] + rest) == (Any, 1)
    ensures Lex(l, [BACKSLASH] + rest) == Lex(l.(temp := l.temp + [BACKSLASH]), rest)
  {
    var s := [BACKSLASH] + rest;
    LexOne(l, s, Any, 1);
    assert s[..1] == [BACKSLASH] && s[1..] == rest;
  }

  lemma LexInner(l: Lexer, i: Inner, rest: text)
    requires l.mode == String && InnerOk(i)
    ensures Lex(l, InnerText(i) + rest) == Lex(l.(temp := l.temp + InnerValue(i)), rest)
  {
    hide Lex;
    match i
    case Same(c) => LexSame(l, c, rest);
    case LineFeed => LexPair(l, 'n', rest, EscapedN);
    case Tab => LexPair(l, 't', rest, EscapedT);
    case FormFeed => LexPair(l, 'f', rest, EscapedF);
    case Return => LexPair(l, 'r', rest, EscapedR);
    case Backspace => LexPair(l, 'b', rest, EscapedB);
    case Escaped(c) => LexPair(l, c, rest, EscapedAny);
    case BrokenLine => LexBrokenLine(l, rest);
  }

  lemma LexBrokenLine(l: Lexer, rest: text)
    requires l.mode == String
    ensures Lex(l, [BACKSLASH, '\n'] + rest) == Lex(l.(temp := l.temp + [BACKSLASH, '\n']), rest)
  {
    assert [BACKSLASH, '\n'] + rest == [BACKSLASH] + (['\n'] + rest);
    LexBackslash(l, ['\n'] + rest);
    LexSame(l.(temp := l.temp + [BACKSLASH]), '\n', rest);
    assert l.temp + [BACKSLASH] + ['\n'] == l.temp + [BACKSLASH, '\n'];
  }

  lemma {:induction false} LexInners(l: Lexer, inner: seq<Inner>, rest: text)
    requires l.mode == String && InnersOk(inner)
    ensures Lex(l, InnersText(inner) + rest) == Lex(l.(temp := l.temp + InnersValue(inner)), rest)
    decreases |inner|
  {
    hide Lex;
    if inner == [] {
      assert [] + rest == rest && l.temp + [] == l.temp;
    } else {
      var more, value := InnersText(inner[1..]), InnersValue(inner[1..]);
      Associative(InnerText(inner[0]), more, rest);
      LexInner(l, inner[0], more + rest);
      LexInners(l.(temp := l.temp + InnerValue(inner[0])), inner[1..], rest);
      Associative(l.temp, InnerValue(inner[0]), value);
    }
  }

  // Outside.

  lemma LexQuoted(l: Lexer, inner: seq<Inner>, rest: text)
    requires l.mode == Initial && InnersOk(inner)
    ensures Lex(l, [QUOTE] + InnersText(inner) + [QUOTE] + rest) == Lex(l.(temp := l.temp + InnersValue(inner)), rest)
  {
    var inside, behind := l.(mode := String), [QUOTE] + rest;
    var s := [QUOTE] + (InnersText(inner) + behind);
    assert [QUOTE] + InnersText(inner) + [QUOTE] + rest == s;
    LexOne(l, s, OpenQuote, 1);
    assert s[1..] == InnersText(inner) + behind;
    LexInners(inside, inner, behind);
    LexOne(inside.(temp := l.temp + InnersValue(inner)), behind, CloseQuote, 1);
    assert behind[1..] == rest;
  }

  lemma LexPiece(l: Lexer, p: Piece, rest: text)
    requires l.mode == Initial && PieceOk(p)
    ensures Lex(l, PieceText(p) + rest) == Lex(l.(temp := l.temp + PieceValue(p)), rest)
  {
    hide Lex;
    match p
    case Char(c) => LexChar(l, c, rest);
    case Space => LexPair(l, ' ', rest, EscapedSpace);
    case Literal(c) =>
      assert [BACKSLASH, c] + rest == [BACKSLASH] + ([c] + rest);
      LexBackslash(l, [c] + rest);
      LexChar(l.(temp := l.temp + [BACKSLASH]), c, rest);
      assert l.temp + [BACKSLASH] + [c] == l.temp + [BACKSLASH, c];
    case InQuotes(inner) => LexQuoted(l, inner, rest);
  }

  lemma LexChar(l: Lexer, c: char, rest: text)
    requires l.mode == Initial && IsPlain(c) && !IsBlank(c)
    ensures Lex(l, [c] + rest) == Lex(l.(temp := l.temp + [c]), rest)
  {
    var s := [c] + rest;
    LexOne(l, s, Any, 1);
    assert s[..1] == [c] && s[1..] == rest;
  }

  lemma {:induction false} LexPieces(l: Lexer, ps: seq<Piece>, rest: text)
    requires l.mode == Initial && forall p | p in ps :: PieceOk(p)
    ensures Lex(l, Written(ps) + rest) == Lex(l.(temp := l.temp + Value(ps)), rest)
    decreases |ps|
  {
    hide Lex;
    if ps == [] {
      assert [] + rest == rest && l.temp + [] == l.temp;
    } else {
      var more, value := Written(ps[1..]), Value(ps[1..]);
      Associative(PieceText(ps[0]), more, rest);
      LexPiece(l, ps[0], more + rest);
      LexPieces(l.(temp := l.temp + PieceValue(ps[0])), ps[1..], rest);
      Associative(l.temp, PieceValue(ps[0]), value);
    }
  }

  lemma {:induction false} SpacesEnd(blanks: text, rest: text)
    requires forall c | c in blanks :: IsBlank(c)
    requires rest == [] || !IsBlank(rest[0])
    ensures SpaceLength(blanks + rest) == |blanks|
  {
    if blanks == [] {
      assert blanks + rest == rest;
    } else {
      assert blanks[0] in blanks && (blanks + rest)[0] == blanks[0] && (blanks + rest)[1..] == blanks[1..] + rest;
      SpacesEnd(blanks[1..], rest);
    }
  }

  /** Blanks end an argument. */
  lemma LexBlanks(l: Lexer, blanks: text, rest: text)
    requires l.mode == Initial && forall c | c in blanks :: IsBlank(c)
    requires rest == [] || !IsBlank(rest[0])
    ensures Lex(l, blanks + rest) == Lex(if blanks == [] then l else NextArgument(l), rest)
  {
    if blanks == [] {
      assert blanks + rest == rest;
    } else {
      var s := blanks + rest;
      SpacesEnd(blanks, rest);
      assert blanks[0] in blanks && s[0] == blanks[0];
      LexOne(l, s, Spaces, |blanks|);
      assert s[|blanks|..] == rest;
    }
  }

  lemma WrittenStart(ps: seq<Piece>)
    requires PiecesOk(ps)
    ensures Written(ps) != [] && !IsBlank(Written(ps)[0])
  {
    assert ps[0] in ps && Written(ps)[0] == PieceText(ps[0])[0];
  }

  lemma LexWord(l: Lexer, w: Word, rest: text)
    requires l.mode == Initial && WordOk(w) && (l.temp == [] || w.blanks != [])
    ensures Lex(l, w.blanks + Written(w.pieces) + rest)
         == Lex(NextArgument(l).(temp := Value(w.pieces)), rest)
  {
    hide Lex;
    WrittenStart(w.pieces);
    Associative(w.blanks, Written(w.pieces), rest);
    LexBlanks(l, w.blanks, Written(w.pieces) + rest);
    LexPieces(NextArgument(l), w.pieces, rest);
    assert [] + Value(w.pieces) == Value(w.pieces);
  }

  function Kept(v: text): seq<text> {
    if v == [] then [] else [v]
  }

  lemma {:induction false} LexLine(l: Lexer, ws: seq<Word>)
    requires l.mode == Initial && LineOk(ws) && (l.temp == [] || ws == [] || ws[0].blanks != [])
    ensures NextArgument(Lex(l, Line(ws))).tokens == l.tokens + (Kept(l.temp) + NonEmpty(Values(ws)))
    decreases |ws|
  {
    if ws == [] {
      assert Kept(l.temp) + [] == Kept(l.temp) && l.tokens + [] == l.tokens;
    } else {
      var w, rest := ws[0], Line(ws[1..]);
      var next := NextArgument(l).(temp := Value(w.pieces));
      LexWord(l, w, rest);
      assert forall x | x in ws[1..] :: x in ws;
      LexLine(next, ws[1..]);
      LineTokens(l, ws);
    }
  }

  lemma LineTokens(l: Lexer, ws: seq<Word>)
    requires ws != []
    ensures var v := Value(ws[0].pieces);
      NextArgument(l).tokens + (Kept(v) + NonEmpty(Values(ws[1..]))) == l.tokens + (Kept(l.temp) + NonEmpty(Values(ws)))
  {
    var v, later := Value(ws[0].pieces), NonEmpty(Values(ws[1..]));
    assert Values(ws)[1..] == Values(ws[1..]);
    assert NonEmpty(Values(ws)) == Kept(v) + later;
    assert l.tokens + [] == l.tokens && [] + (Kept(v) + later) == Kept(v) + later;
    Associative(l.tokens, Kept(l.temp), Kept(v) + later);
  }

  /** The tokens of a line are the values of its arguments, empty ones left out. Outside quotes a
      backslash makes a space part of the argument and is a character elsewhere; inside, it writes
      control characters, quotes and itself. */
  lemma TokensOfLine(ws: seq<Word>)
    requires LineOk(ws)
    ensures Tokens(Line(ws)) == NonEmpty(Values(ws))
  {
    LexLine(START, ws);
    assert [] + NonEmpty(Values(ws)) == NonEmpty(Values(ws));
    assert [] + ([] + NonEmpty(Values(ws))) == NonEmpty(Values(ws));
  }

  // -- Quoting ---------------------------------------------------------------

  /** str.replace of one character. */
  function Replace(s: text, c: char, sub: text): text {
    if s == [] then [] else (if s[0] == c then sub else [s[0]]) + Replace(s[1..], c, sub)
  }

  /** Backslashes are doubled first, then quotes get one. */
  function Escape(s: text): text {
    Replace(Replace(s, BACKSLASH, [BACKSLASH, BACKSLASH]), QUOTE, [BACKSLASH, QUOTE])
  }

  function Quoted(s: text): text {
    [QUOTE] + Escape(s) + [QUOTE]
  }

  lemma {:induction false} ReplaceConcat(a: text, b: text, c: char, sub: text)
    ensures Replace(a + b, c, sub) == Replace(a, c, sub) + Replace(b, c, sub)
  {
    if a == [] {
      assert a + b == b;
    } else {
      ReplaceConcat(a[1..], b, c, sub);
      assert (a + b)[0] == a[0] && (a + b)[1..] == a[1..] + b;
      Associative(if a[0] == c then sub else [a[0]], Replace(a[1..], c, sub), Replace(b, c, sub));
    }
  }

  lemma ReplaceOne(c: char, d: char, sub: text)
    ensures Replace([d], c, sub) == if d == c then sub else [d]
  {
    assert Replace([d], c, sub) == (if d == c then sub else [d]) + Replace([], c, sub);
  }

  /** The two passes together put one backslash before each special character. */
  lemma EscapeStep(s: text)
    requires s != []
    ensures Escape(s) == (if IsSpecial(s[0]) then [BACKSLASH, s[0]] else [s[0]]) + Escape(s[1..])
  {
    var c := s[0];
    var doubled := if c == BACKSLASH then [BACKSLASH, BACKSLASH] else [c];
    ReplaceConcat(doubled, Replace(s[1..], BACKSLASH, [BACKSLASH, BACKSLASH]), QUOTE, [BACKSLASH, QUOTE]);
    ReplaceOne(QUOTE, c, [BACKSLASH, QUOTE]);
    if c == BACKSLASH {
      assert doubled == [BACKSLASH] + [BACKSLASH];
      ReplaceConcat([BACKSLASH], [BACKSLASH], QUOTE, [BACKSLASH, QUOTE]);
    }
  }

  /** What the two passes write is a quoted string of the text's characters. */
  function Inners(s: text): (inner: seq<Inner>)
    ensures |inner| == |s|
  {
    seq(|s|, i requires 0 <= i < |s| => if IsSpecial(s[i]) then Escaped(s[i]) else Same(s[i]))
  }

  lemma {:induction false} EscapeIsInners(s: text)
    ensures InnersText(Inners(s)) == Escape(s) && InnersValue(Inners(s)) == s && InnersOk(Inners(s))
  {
    if s != [] {
      EscapeStep(s);
      EscapeIsInners(s[1..]);
      assert Inners(s)[1..] == Inners(s[1..]);
      assert forall i | i in Inners(s) :: InnerOk(i);
      assert [s[0]] + s[1..] == s;
    }
  }

  // -- Commands --------------------------------------------------------------

  /** An argument as the Python code writes it: a bare word or a quoted string. */
  datatype Argument = Bare(word: text) | Quotes(value: text)

  predicate IsWord(w: text) {
    w != [] && forall c | c in w :: IsPlain(c) && !IsBlank(c)
  }

  predicate Wellformed(a: Argument) {
    a.Bare? ==> IsWord(a.word)
  }

  function ArgumentText(a: Argument): text {
    match a
    case Bare(w) => w
    case Quotes(v) => Quoted(v)
  }

  function ArgumentValue(a: Argument): text {
    match a
    case Bare(w) => w
    case Quotes(v) => v
  }

  /** The arguments separated by single spaces. */
  function CommandLine(args: seq<Argument>): text {
    if args == [] then []
    else if |args| == 1 then ArgumentText(args[0])
    else ArgumentText(args[0]) + [' '] + CommandLine(args[1..])
  }

  function ArgumentValues(args: seq<Argument>): (vs: seq<text>)
    ensures |vs| == |args|
  {
    seq(|args|, i requires 0 <= i < |args| => ArgumentValue(args[i]))
  }

  function Chars(w: text): (ps: seq<Piece>)
    ensures |ps| == |w|
  {
    seq(|w|, i requires 0 <= i < |w| => Char(w[i]))
  }

  lemma {:induction false} CharsWritten(w: text)
    ensures Written(Chars(w)) == w && Value(Chars(w)) == w
  {
    if w != [] {
      CharsWritten(w[1..]);
      assert Chars(w)[1..] == Chars(w[1..]);
      assert [w[0]] + w[1..] == w;
    }
  }

  function PiecesOf(a: Argument): seq<Piece> {
    match a
    case Bare(w) => Chars(w)
    case Quotes(v) => [InQuotes(Inners(v))]
  }

  lemma ArgumentIsPieces(a: Argument)
    requires Wellformed(a)
    ensures PiecesOk(PiecesOf(a)) && Written(PiecesOf(a)) == ArgumentText(a) && Value(PiecesOf(a)) == ArgumentValue(a)
  {
    match a
    case Bare(w) =>
      CharsWritten(w);
    case Quotes(v) =>
      EscapeIsInners(v);
      var p := InQuotes(Inners(v));
      assert Written([p]) == PieceText(p) + Written([]) && Value([p]) == PieceValue(p) + Value([]);
      assert PieceText(p) + [] == PieceText(p) && PieceValue(p) + [] == PieceValue(p);
  }

  function WordsOf(blanks: text, args: seq<Argument>): (ws: seq<Word>)
    ensures |ws| == |args|
    decreases |args|
  {
    if args == [] then [] else [Word(blanks, PiecesOf(args[0]))] + WordsOf([' '], args[1..])
  }

  /** One argument more in front. */
  lemma LineOkCons(w: Word, ws: seq<Word>)
    requires WordOk(w) && LineOk(ws) && (ws != [] ==> ws[0].blanks != [])
    ensures LineOk([w] + ws) && ([w] + ws)[1..] == ws
  {
    assert forall x | x in [w] + ws :: x == w || x in ws;
    assert forall i | 0 < i < |[w] + ws| :: ([w] + ws)[i] == ws[i - 1];
  }

  lemma {:induction false} CommandLineIsLine(blanks: text, args: seq<Argument>)
    requires forall a | a in args :: Wellformed(a)
    requires forall c | c in blanks :: IsBlank(c)
    ensures LineOk(WordsOf(blanks, args)) && Values(WordsOf(blanks, args)) == ArgumentValues(args)
    ensures args != [] ==> Line(WordsOf(blanks, args)) == blanks + CommandLine(args)
    decreases |args|
  {
    hide LineOk, PiecesOk, Wellformed, Written, Value, ArgumentText, ArgumentValue, PiecesOf;
    if args != [] {
      var rest := WordsOf([' '], args[1..]);
      ArgumentIsPieces(args[0]);
      CommandLineIsLine([' '], args[1..]);
      LineOkCons(Word(blanks, PiecesOf(args[0])), rest);
      assert ArgumentValues(args) == [ArgumentValue(args[0])] + ArgumentValues(args[1..]);
      if |args| == 1 {
        assert rest == [];
        assert blanks + ArgumentText(args[0]) + [] == blanks + ArgumentText(args[0]);
      } else {
        Associative(ArgumentText(args[0]), [' '], CommandLine(args[1..]));
        Associative(blanks, ArgumentText(args[0]), [' '] + CommandLine(args[1..]));
      }
    } else {
      LineOkNone();
    }
  }

  lemma LineOkNone()
    ensures LineOk([])
  {
  }

  /** Tokenizing undoes quoting: the tokens of a command line are its values, empty ones left
      out, whatever quotes, backslashes, spaces or line breaks the values contain. */
  lemma TokensOfCommandLine(args: seq<Argument>)
    requires forall a | a in args :: Wellformed(a)
    ensures Tokens(CommandLine(args)) == NonEmpty(ArgumentValues(args))
  {
    CommandLineIsLine([], args);
    TokensOfLine(WordsOf([], args));
    assert [] + CommandLine(args) == CommandLine(args);
  }

  /** So nothing is lost exactly when no quoted string is empty. */
  lemma QuotingRoundTrip(args: seq<Argument>)
    requires forall a | a in args :: Wellformed(a)
    ensures Tokens(CommandLine(args)) == ArgumentValues(args) <==> [] !in ArgumentValues(args)
  {
    TokensOfCommandLine(args);
    NonEmptyIsAll(ArgumentValues(args));
  }

  lemma {:induction false} NonEmptyIsAll(vs: seq<text>)
    ensures |NonEmpty(vs)| <= |vs|
    ensures NonEmpty(vs) == vs <==> [] !in vs
  {
    if vs != [] {
      NonEmptyIsAll(vs[1..]);
      if vs[0] != [] {
        assert vs == [vs[0]] + vs[1..];
        assert NonEmpty(vs)[1..] == NonEmpty(vs[1..]);
      }
    }
  }
}
