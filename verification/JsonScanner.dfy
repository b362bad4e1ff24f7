/** The balanced-bracket scanner that finds JSON inside model answers (utils/json_utils.py), and
the JSON texts (RFC 8259, sections 2 to 7) it is meant to find. */
module JsonScanner {
  datatype Scan = Scanning(depth: int, inString: bool, escape: bool) | Closed

  datatype Brackets = Brackets(open: char, close: char)

  const Braces := Brackets('{', '}')
  const Squares := Brackets('[', ']')

  function Step(b: Brackets, st: Scan, c: char): Scan {
    match st
    case Closed => Closed
    case Scanning(depth, inString, escape) =>
      if escape then Scanning(depth, inString, false)
      else if c == '\\' then Scanning(depth, inString, true)
      else if c == '"' then Scanning(depth, !inString, false)
      else if inString then st
      else if c == b.open then Scanning(depth + 1, false, false)
      else if c == b.close then if depth == 1 then Closed else Scanning(depth - 1, false, false)
      else st
  }

  /** The scanner's state after reading `s`. Once closed it stays closed. */
  function Feed(b: Brackets, st: Scan, s: string): Scan {
    if s == [] then st else Step(b, Feed(b, st, s[..|s| - 1]), s[|s| - 1])
  }

  const Start := Scanning(0, false, false)

  lemma {:induction false} FeedConcat(b: Brackets, st: Scan, s: string, t: string)
    ensures Feed(b, st, s + t) == Feed(b, Feed(b, st, s), t)
  {
    if t == [] {
      assert s + t == s;
    } else {
      assert (s + t)[..|s + t| - 1] == s + t[..|t| - 1];
      FeedConcat(b, st, s, t[..|t| - 1]);
    }
  }

  lemma {:induction false} ClosedStays(b: Brackets, s: string)
    ensures Feed(b, Closed, s) == Closed
  {
    if s != [] {
      ClosedStays(b, s[..|s| - 1]);
    }
  }

  /** Position of the first `c` in `text`, or its length. */
  function Find(text: string, c: char): (i: nat)
    ensures i <= |text| && c !in text[..i] && (i < |text| ==> text[i] == c)
  {
    if text == [] || text[0] == c then 0 else 1 + Find(text[1..], c)
  }

  lemma {:induction false} FindSkips(prefix: string, rest: string, c: char)
    requires c !in prefix && rest != [] && rest[0] == c
    ensures Find(prefix + rest, c) == |prefix|
  {
    if prefix == [] {
      assert prefix + rest == rest;
    } else {
      assert (prefix + rest)[1..] == prefix[1..] + rest;
      FindSkips(prefix[1..], rest, c);
    }
  }

  /** `found` is the shortest text from the first opening bracket on that closes the scan, and is
      empty when no such text exists. */
  ghost predicate Extracts(text: string, b: Brackets, found: string) {
    var tail := text[Find(text, b.open)..];
    if found == [] then Feed(b, Start, tail) != Closed
    else found <= tail && Feed(b, Start, found) == Closed && Feed(b, Start, found[..|found| - 1]) != Closed
  }

  lemma ClosesOnce(b: Brackets, tail: string, n: nat, k: nat)
    requires n <= |tail| && k <= n
    requires Feed(b, Start, tail[..k]) == Closed
    ensures Feed(b, Start, tail[..n]) == Closed
  {
    assert tail[..n] == tail[..k] + tail[k..n];
    FeedConcat(b, Start, tail[..k], tail[k..n]);
    ClosedStays(b, tail[k..n]);
  }

  lemma ExtractsOneText(text: string, b: Brackets, p: string, q: string)
    requires Extracts(text, b, p) && Extracts(text, b, q)
    ensures p == q
  {
    var tail := text[Find(text, b.open)..];
    assert p != [] ==> p == tail[..|p|];
    assert q != [] ==> q == tail[..|q|];
    assert tail == tail[..|tail|];
    if p != [] {
      assert p[..|p| - 1] == tail[..|p| - 1];
      ClosesOnce(b, tail, |tail|, |p|);
      if |q| < |p| && q != [] {
        ClosesOnce(b, tail, |p| - 1, |q|);
      }
    }
    if q != [] {
      assert q[..|q| - 1] == tail[..|q| - 1];
      ClosesOnce(b, tail, |tail|, |q|);
      if |p| < |q| && p != [] {
        ClosesOnce(b, tail, |q| - 1, |p|);
      }
    }
  }

  /** The scanning loop itself. */
  method ExtractBalanced(text: string, b: Brackets) returns (found: string)
    ensures Extracts(text, b, found)
  {
    var start := Find(text, b.open);
    if start == |text| {
      return "";
    }
    var depth, inString, escape := 0, false, false;
    for i := start to |text|
      invariant Feed(b, Start, text[start..i]) == Scanning(depth, inString, escape)
    {
      assert text[start..i + 1][..i - start] == text[start..i];
      var c := text[i];
      if escape {
        escape := false;
      } else if c == '\\' {
        escape := true;
      } else if c == '"' {
        inString := !inString;
      } else if inString {
      } else if c == b.open {
        depth := depth + 1;
      } else if c == b.close {
        depth := depth - 1;
        if depth == 0 {
          return text[start..i + 1];
        }
      }
    }
    assert text[start..|text|] == text[start..];
    return "";
  }

  // What the scanner counts

  /** The length of the run of backslashes at the end. */
  function Backslashes(s: string): nat {
    if s == "" || s[|s| - 1] != '\\' then 0 else 1 + Backslashes(s[..|s| - 1])
  }

  /** The next character is escaped: the run of backslashes before it is odd. */
  predicate EscapesNext(s: string) {
    Backslashes(s) % 2 == 1
  }

  /** The number of quotes that are not escaped. */
  function Quotes(s: string): nat {
    if s == "" then 0
    else Quotes(s[..|s| - 1]) + if s[|s| - 1] == '"' && !EscapesNext(s[..|s| - 1]) then 1 else 0
  }

  predicate WithinString(s: string) {
    Quotes(s) % 2 == 1
  }

  /** Opening minus closing brackets, those escaped or within strings not counted. */
  function Level(b: Brackets, s: string): int {
    if s == "" then 0
    else
      var before := s[..|s| - 1];
      Level(b, before) +
      if EscapesNext(before) || WithinString(before) then 0
      else if s[|s| - 1] == b.open then 1
      else if s[|s| - 1] == b.close then -1
      else 0
  }

  /** The last character closes the only bracket that is open. */
  predicate JustClosed(b: Brackets, s: string) {
    s != "" && Level(b, s[..|s| - 1]) == 1 && Level(b, s) == 0
  }

  ghost predicate ClosedBefore(b: Brackets, s: string) {
    exists k :: 0 <= k <= |s| && JustClosed(b, s[..k])
  }

  lemma ClosedBeforeStep(b: Brackets, s: string)
    requires s != ""
    ensures ClosedBefore(b, s) <==> ClosedBefore(b, s[..|s| - 1]) || JustClosed(b, s)
  {
    var init := s[..|s| - 1];
    assert s[..|s|] == s;
    assert forall k :: 0 <= k <= |init| ==> s[..k] == init[..k];
    if ClosedBefore(b, init) {
      var k :| 0 <= k <= |init| && JustClosed(b, init[..k]);
      assert JustClosed(b, s[..k]);
    }
  }

  lemma ParityFlips(n: nat)
    ensures (n + 1) % 2 == 1 <==> n % 2 != 1
  {
  }

  /** The scanner's state says what has been read: it is closed once some bracket has closed the level, and
      otherwise knows the level, whether a string is open, and whether the next character is escaped. */
  lemma {:induction false} FeedCounts(b: Brackets, s: string)
    requires b.open !in "\\\"" && b.close !in "\\\"" && b.open != b.close
    ensures Feed(b, Start, s) ==
              if ClosedBefore(b, s) then Closed else Scanning(Level(b, s), WithinString(s), EscapesNext(s))
  {
    hide ClosedBefore;
    if s == "" {
      NothingClosed(b);
    } else {
      var init := s[..|s| - 1];
      FeedCounts(b, init);
      ClosedBeforeStep(b, s);
      ParityFlips(Backslashes(init));
      ParityFlips(Quotes(init));
    }
  }

  lemma NothingClosed(b: Brackets)
    ensures !ClosedBefore(b, "")
  {
  }

  lemma {:induction false} StaysOpen(b: Brackets, s: string, k: nat)
    requires 1 <= k <= |s| && Level(b, s[..1]) == 1 && !ClosedBefore(b, s[..k])
    ensures Level(b, s[..k]) >= 1
  {
    if k > 1 {
      assert s[..k][..k - 1] == s[..k - 1];
      ClosedBeforeStep(b, s[..k]);
      StaysOpen(b, s, k - 1);
    }
  }

  /** What is extracted begins with the first opening bracket, is balanced, and has no shorter beginning that
      is: strings and escapes aside, every bracket in it is closed in it, and the first one last. */
  lemma ExtractedIsBalanced(text: string, b: Brackets, found: string)
    requires IsBracketPair(b) && Extracts(text, b, found) && found != ""
    ensures found[0] == b.open && Level(b, found) == 0 && !WithinString(found)
    ensures forall k :: 1 <= k < |found| ==> Level(b, found[..k]) >= 1
  {
    hide ClosedBefore, Level, Feed, Step;
    var init := found[..|found| - 1];
    FeedCounts(b, found);
    FeedCounts(b, init);
    ClosedBeforeStep(b, found);
    ClosingIsNoQuote(b, found);
    OpensAtOne(b, found);
    forall k | 1 <= k < |found|
      ensures Level(b, found[..k]) >= 1
    {
      assert init[..k] == found[..k];
      StillOpen(b, init, k);
      StaysOpen(b, found, k);
    }
  }

  lemma StillOpen(b: Brackets, s: string, k: nat)
    requires k <= |s| && !ClosedBefore(b, s)
    ensures !ClosedBefore(b, s[..k])
  {
    assert forall j :: 0 <= j <= k ==> s[..k][..j] == s[..j];
  }

  lemma ClosingIsNoQuote(b: Brackets, s: string)
    requires IsBracketPair(b) && JustClosed(b, s)
    ensures !WithinString(s)
  {
  }

  lemma OpensAtOne(b: Brackets, s: string)
    requires IsBracketPair(b) && s != "" && s[0] == b.open
    ensures Level(b, s[..1]) == 1
  {
    assert s[..1][..0] == "";
  }

  // JSON texts

  datatype Piece = Plain(c: char) | Escaped(c: char) | Unicode(hex: string)

  datatype Value =
    | Scalar(text: string)
    | Text(pieces: seq<Piece>)
    | Array(blank: string, items: Items)
    | Object(blank: string, members: Members)

  datatype Items = NoItems | Item(before: string, value: Value, after: string, rest: Items)

  datatype Members =
    | NoMembers
    | Member(before: string, key: seq<Piece>, blank: string, gap: string, value: Value, after: string, rest: Members)

  predicate IsBlank(s: string) {
    forall i :: 0 <= i < |s| ==> s[i] in " \t\n\r"
  }

  /** Free of quotes, backslashes and brackets, as every number and every literal name is. */
  predicate IsScalar(s: string) {
    forall i :: 0 <= i < |s| ==> s[i] !in "\"\\{}[]"
  }

  predicate IsPiece(p: Piece) {
    match p
    case Plain(c) => c != '"' && c != '\\'
    case Escaped(c) => c in "\"\\/bfnrt"
    case Unicode(hex) => |hex| == 4 && forall i :: 0 <= i < 4 ==> hex[i] in "0123456789abcdefABCDEF"
  }

  predicate ArePieces(pieces: seq<Piece>) {
    forall i :: 0 <= i < |pieces| ==> IsPiece(pieces[i])
  }

  predicate IsValue(v: Value) {
    match v
    case Scalar(text) => IsScalar(text)
    case Text(pieces) => ArePieces(pieces)
    case Array(blank, items) => IsBlank(blank) && AreItems(items)
    case Object(blank, members) => IsBlank(blank) && AreMembers(members)
  }

  predicate AreItems(items: Items) {
    match items
    case NoItems => true
    case Item(before, value, after, rest) => IsBlank(before) && IsValue(value) && IsBlank(after) && AreItems(rest)
  }

  predicate AreMembers(members: Members) {
    match members
    case NoMembers => true
    case Member(before, key, blank, gap, value, after, rest) =>
      && IsBlank(before) && ArePieces(key) && IsBlank(blank) && IsBlank(gap)
      && IsValue(value) && IsBlank(after) && AreMembers(rest)
  }

  function RenderPiece(p: Piece): string {
    match p
    case Plain(c) => [c]
    case Escaped(c) => ['\\', c]
    case Unicode(hex) => "\\u" + hex
  }

  function RenderPieces(pieces: seq<Piece>): string {
    if pieces == [] then "" else RenderPieces(pieces[..|pieces| - 1]) + RenderPiece(pieces[|pieces| - 1])
  }

  function Quoted(pieces: seq<Piece>): string {
    "\"" + RenderPieces(pieces) + "\""
  }

  function Render(v: Value): string {
    match v
    case Scalar(text) => text
    case Text(pieces) => Quoted(pieces)
    case Array(blank, items) => "[" + (blank + RenderItems(items)) + "]"
    case Object(blank, members) => "{" + (blank + RenderMembers(members)) + "}"
  }

  function RenderItems(items: Items): string {
    match items
    case NoItems => ""
    case Item(before, value, after, rest) =>
      before + (Render(value) + (after + (if rest.NoItems? then "" else "," + RenderItems(rest))))
  }

  function RenderMembers(members: Members): string {
    match members
    case NoMembers => ""
    case Member(before, key, blank, gap, value, after, rest) =>
      before + (Quoted(key) + (blank + (":" + (gap + (Render(value) +
      (after + (if rest.NoMembers? then "" else "," + RenderMembers(rest))))))))
  }

  /** A string is written piece by piece. */
  lemma {:induction false} PiecesAreWritten(a: seq<Piece>, b: seq<Piece>, p: Piece)
    ensures RenderPieces(a + b) == RenderPieces(a) + RenderPieces(b)
    ensures RenderPieces([p]) == RenderPiece(p)
  {
    assert [p][..0] == [];
    if b == [] {
      assert a + b == a;
    } else {
      assert (a + b)[..|a + b| - 1] == a + b[..|b| - 1];
      PiecesAreWritten(a, b[..|b| - 1], p);
    }
  }

  lemma Assoc(a: string, b: string, c: string)
    ensures a + (b + c) == a + b + c
  {
  }

  /** Arrays are written as their grammar says: items are separated by commas. */
  lemma ItemsAreWritten(x: string, v: Value, y: string, rest: Items)
    ensures RenderItems(Item(x, v, y, rest)) == x + Render(v) + y + if rest.NoItems? then "" else "," + RenderItems(rest)
    ensures Render(Array(x, rest)) == "[" + x + RenderItems(rest) + "]"
  {
    var tail := if rest.NoItems? then "" else "," + RenderItems(rest);
    Assoc(x, Render(v), y + tail);
    Assoc(x + Render(v), y, tail);
    Assoc("[", x, RenderItems(rest));
  }

  /** So are objects: a member is a string, a colon and a value, and members are separated by commas. */
  lemma MembersAreWritten(x: string, key: seq<Piece>, k: string, g: string, v: Value, y: string, rest: Members)
    ensures RenderMembers(Member(x, key, k, g, v, y, rest)) ==
            x + ("\"" + RenderPieces(key) + "\"") + k + ":" + g + Render(v) + y + if rest.NoMembers? then "" else "," + RenderMembers(rest)
    ensures Render(Object(x, rest)) == "{" + x + RenderMembers(rest) + "}"
  {
    var name, value := "\"" + RenderPieces(key) + "\"", Render(v);
    var tail := if rest.NoMembers? then "" else "," + RenderMembers(rest);
    Assoc(x, name, k + (":" + (g + (value + (y + tail)))));
    Assoc(x + name, k, ":" + (g + (value + (y + tail))));
    Assoc(x + name + k, ":", g + (value + (y + tail)));
    Assoc(x + name + k + ":", g, value + (y + tail));
    Assoc(x + name + k + ":" + g, value, y + tail);
    Assoc(x + name + k + ":" + g + value, y, tail);
    Assoc("{", x, RenderMembers(rest));
  }

  // Every piece of JSON text leaves the scanner where it was

  predicate IsBracketPair(b: Brackets) {
    b == Braces || b == Squares
  }

  predicate Neutral(b: Brackets, depth: int, s: string) {
    Feed(b, Scanning(depth, false, false), s) == Scanning(depth, false, false)
  }

  lemma NeutralConcat(b: Brackets, depth: int, s: string, t: string)
    requires Neutral(b, depth, s) && Neutral(b, depth, t)
    ensures Neutral(b, depth, s + t)
  {
    FeedConcat(b, Scanning(depth, false, false), s, t);
  }

  lemma {:induction false} ScalarNeutral(b: Brackets, depth: int, s: string)
    requires IsBracketPair(b) && IsScalar(s)
    ensures Neutral(b, depth, s)
  {
    if s != [] {
      ScalarNeutral(b, depth, s[..|s| - 1]);
      assert s[|s| - 1] !in "\"\\{}[]";
    }
  }

  lemma BlankNeutral(b: Brackets, depth: int, s: string)
    requires IsBracketPair(b) && IsBlank(s)
    ensures Neutral(b, depth, s)
  {
    forall i | 0 <= i < |s|
      ensures s[i] !in "\"\\{}[]"
    {
      assert s[i] in " \t\n\r";
    }
    ScalarNeutral(b, depth, s);
  }

  lemma {:induction false} InsideString(b: Brackets, depth: int, s: string)
    requires '"' !in s && '\\' !in s
    ensures Feed(b, Scanning(depth, true, false), s) == Scanning(depth, true, false)
  {
    if s != [] {
      assert forall c :: c in s[..|s| - 1] ==> c in s;
      InsideString(b, depth, s[..|s| - 1]);
    }
  }

  lemma FeedOne(b: Brackets, st: Scan, c: char)
    ensures Feed(b, st, [c]) == Step(b, st, c)
  {
    assert [c][..0] == [];
  }

  lemma EscapeInside(b: Brackets, depth: int, c: char)
    ensures Feed(b, Scanning(depth, true, false), ['\\', c]) == Scanning(depth, true, false)
  {
    FeedOne(b, Scanning(depth, true, false), '\\');
    FeedOne(b, Scanning(depth, true, true), c);
    FeedConcat(b, Scanning(depth, true, false), ['\\'], [c]);
    assert ['\\', c] == ['\\'] + [c];
  }

  lemma HexIsPlain(hex: string)
    requires IsPiece(Unicode(hex))
    ensures '"' !in hex && '\\' !in hex
  {
    forall i | 0 <= i < |hex|
      ensures hex[i] != '"' && hex[i] != '\\'
    {
      HexDigitIsPlain(hex[i]);
    }
  }

  lemma HexDigitIsPlain(c: char)
    requires c in "0123456789abcdefABCDEF"
    ensures c != '"' && c != '\\'
  {
  }

  lemma PieceInside(b: Brackets, depth: int, p: Piece)
    requires IsPiece(p)
    ensures Feed(b, Scanning(depth, true, false), RenderPiece(p)) == Scanning(depth, true, false)
  {
    hide Feed, IsPiece;
    var inside := Scanning(depth, true, false);
    match p
    case Plain(c) =>
      PlainIsPlain(c);
      FeedOne(b, inside, c);
    case Escaped(c) =>
      EscapeInside(b, depth, c);
    case Unicode(hex) =>
      HexIsPlain(hex);
      EscapeInside(b, depth, 'u');
      FeedConcat(b, inside, "\\u", hex);
      InsideString(b, depth, hex);
      assert "\\u" == ['\\', 'u'];
  }

  lemma PlainIsPlain(c: char)
    requires IsPiece(Plain(c))
    ensures c != '"' && c != '\\'
  {
  }

  lemma {:induction false} PiecesInside(b: Brackets, depth: int, pieces: seq<Piece>)
    requires ArePieces(pieces)
    ensures Feed(b, Scanning(depth, true, false), RenderPieces(pieces)) == Scanning(depth, true, false)
  {
    if pieces != [] {
      var k := |pieces| - 1;
      PiecesInside(b, depth, pieces[..k]);
      PieceInside(b, depth, pieces[k]);
      FeedConcat(b, Scanning(depth, true, false), RenderPieces(pieces[..k]), RenderPiece(pieces[k]));
    }
  }

  lemma QuotedNeutral(b: Brackets, depth: int, pieces: seq<Piece>)
    requires IsBracketPair(b) && ArePieces(pieces)
    ensures Neutral(b, depth, Quoted(pieces))
  {
    hide Feed, Step;
    var outside := Scanning(depth, false, false);
    var inside := Scanning(depth, true, false);
    FeedConcat(b, outside, "\"" + RenderPieces(pieces), "\"");
    FeedConcat(b, outside, "\"", RenderPieces(pieces));
    PiecesInside(b, depth, pieces);
    QuoteSwitches(b, depth);
  }

  lemma QuoteSwitches(b: Brackets, depth: int)
    ensures Feed(b, Scanning(depth, false, false), "\"") == Scanning(depth, true, false)
    ensures Feed(b, Scanning(depth, true, false), "\"") == Scanning(depth, false, false)
  {
    FeedOne(b, Scanning(depth, false, false), '"');
    FeedOne(b, Scanning(depth, true, false), '"');
  }

  /** Brackets of the scanned kind raise the depth and lower it again, the other kind does nothing. */
  lemma BracketedNeutral(b: Brackets, depth: int, open: char, body: string, close: char)
    requires IsBracketPair(b) && IsBracketPair(Brackets(open, close)) && depth >= 1
    requires Neutral(b, depth, body) && Neutral(b, depth + 1, body)
    ensures Neutral(b, depth, [open] + body + [close])
  {
    var outside := Scanning(depth, false, false);
    var within := Step(b, outside, open);
    FeedOne(b, outside, open);
    FeedConcat(b, outside, [open], body);
    FeedConcat(b, outside, [open] + body, [close]);
    FeedOne(b, within, close);
  }

  lemma {:induction false} ValueNeutral(b: Brackets, depth: int, v: Value)
    requires IsBracketPair(b) && IsValue(v) && depth >= 1
    ensures Neutral(b, depth, Render(v))
    decreases v
  {
    hide Neutral, Feed, IsBlank, IsScalar, ArePieces;
    match v
    case Scalar(text) => ScalarNeutral(b, depth, text);
    case Text(pieces) => QuotedNeutral(b, depth, pieces);
    case Array(blank, items) => {
      ItemsNeutral(b, depth, blank, items);
      ItemsNeutral(b, depth + 1, blank, items);
      BracketedNeutral(b, depth, '[', blank + RenderItems(items), ']');
    }
    case Object(blank, members) => {
      MembersNeutral(b, depth, blank, members);
      MembersNeutral(b, depth + 1, blank, members);
      BracketedNeutral(b, depth, '{', blank + RenderMembers(members), '}');
    }
  }

  lemma {:induction false} ItemsNeutral(b: Brackets, depth: int, blank: string, items: Items)
    requires IsBracketPair(b) && IsBlank(blank) && AreItems(items) && depth >= 1
    ensures Neutral(b, depth, RenderItems(items))
    ensures Neutral(b, depth, blank + RenderItems(items))
    decreases items
  {
    hide Neutral, Feed, IsBlank, Render;
    match items {
    case NoItems => ScalarNeutral(b, depth, "");
    case Item(before, value, after, rest) => {
      ItemsNeutral(b, depth, blank, rest);
      var tail := if rest.NoItems? then "" else "," + RenderItems(rest);
      ScalarNeutral(b, depth, "");
      ScalarNeutral(b, depth, ",");
      NeutralConcat(b, depth, ",", RenderItems(rest));
      BlankNeutral(b, depth, after);
      NeutralConcat(b, depth, after, tail);
      ValueNeutral(b, depth, value);
      NeutralConcat(b, depth, Render(value), after + tail);
      BlankNeutral(b, depth, before);
      NeutralConcat(b, depth, before, Render(value) + (after + tail));
    }
    }
    BlankNeutral(b, depth, blank);
    NeutralConcat(b, depth, blank, RenderItems(items));
  }

  lemma {:induction false} MembersNeutral(b: Brackets, depth: int, blank: string, members: Members)
    requires IsBracketPair(b) && IsBlank(blank) && AreMembers(members) && depth >= 1
    ensures Neutral(b, depth, RenderMembers(members))
    ensures Neutral(b, depth, blank + RenderMembers(members))
    decreases members
  {
    hide Neutral, Feed, IsBlank, ArePieces, Render, Quoted;
    match members {
    case NoMembers => ScalarNeutral(b, depth, "");
    case Member(before, key, inner, gap, value, after, rest) => {
      MembersNeutral(b, depth, blank, rest);
      var tail := if rest.NoMembers? then "" else "," + RenderMembers(rest);
      ScalarNeutral(b, depth, "");
      ScalarNeutral(b, depth, ",");
      NeutralConcat(b, depth, ",", RenderMembers(rest));
      BlankNeutral(b, depth, after);
      NeutralConcat(b, depth, after, tail);
      ValueNeutral(b, depth, value);
      NeutralConcat(b, depth, Render(value), after + tail);
      BlankNeutral(b, depth, gap);
      NeutralConcat(b, depth, gap, Render(value) + (after + tail));
      ScalarNeutral(b, depth, ":");
      NeutralConcat(b, depth, ":", gap + (Render(value) + (after + tail)));
      BlankNeutral(b, depth, inner);
      NeutralConcat(b, depth, inner, ":" + (gap + (Render(value) + (after + tail))));
      QuotedNeutral(b, depth, key);
      NeutralConcat(b, depth, Quoted(key), inner + (":" + (gap + (Render(value) + (after + tail)))));
      BlankNeutral(b, depth, before);
      NeutralConcat(b, depth, before, Quoted(key) + (inner + (":" + (gap + (Render(value) + (after + tail))))));
    }
    }
    BlankNeutral(b, depth, blank);
    NeutralConcat(b, depth, blank, RenderMembers(members));
  }

  /** The brackets of an array or an object. */
  function Kind(v: Value): Brackets
    requires v.Array? || v.Object?
  {
    if v.Array? then Squares else Braces
  }

  lemma WholeTextCloses(v: Value)
    requires IsValue(v) && (v.Array? || v.Object?)
    ensures var b, s := Kind(v), Render(v);
            && |s| >= 2 && s[0] == b.open
            && Feed(b, Start, s) == Closed && Feed(b, Start, s[..|s| - 1]) == Scanning(1, false, false)
  {
    hide IsValue, AreItems, AreMembers;
    var b, s := Kind(v), Render(v);
    var body := s[1..|s| - 1];
    var one := Scanning(1, false, false);
    BodyNeutral(v);
    FeedOne(b, Start, b.open);
    FeedConcat(b, Start, [b.open], body);
    assert s[..|s| - 1] == [b.open] + body;
    assert s == [b.open] + body + [b.close];
  }

  lemma BodyNeutral(v: Value)
    requires IsValue(v) && (v.Array? || v.Object?)
    ensures var b, s := Kind(v), Render(v);
            |s| >= 2 && s == [b.open] + s[1..|s| - 1] + [b.close] && Neutral(b, 1, s[1..|s| - 1])
  {
    hide Neutral, Feed, IsBlank;
    var s := Render(v);
    match v
    case Array(blank, items) => {
      ItemsNeutral(Squares, 1, blank, items);
      assert s[1..|s| - 1] == blank + RenderItems(items);
    }
    case Object(blank, members) => {
      MembersNeutral(Braces, 1, blank, members);
      assert s[1..|s| - 1] == blank + RenderMembers(members);
    }
  }

  /** The scanner returns the JSON text it was looking for, whatever follows it and whatever precedes
      it without an opening bracket. */
  lemma FindsTheJson(prefix: string, v: Value, suffix: string, found: string)
    requires IsValue(v) && (v.Array? || v.Object?) && Kind(v).open !in prefix
    ensures Extracts(prefix + Render(v) + suffix, Kind(v), found) <==> found == Render(v)
  {
    hide Render, IsValue, Feed;
    var b, s := Kind(v), Render(v);
    var text := prefix + s + suffix;
    WholeTextCloses(v);
    FindSkips(prefix, s + suffix, b.open);
    assert prefix + (s + suffix) == text;
    assert text[|prefix|..] == s + suffix;
    assert s <= s + suffix;
    assert Extracts(text, b, s);
    if Extracts(text, b, found) {
      ExtractsOneText(text, b, found, s);
    }
  }

  /** For every text, a JSON text is what the scanner returns exactly when it stands at the first opening
      bracket. */
  lemma FoundExactlyAtFirstBracket(text: string, v: Value)
    requires IsValue(v) && (v.Array? || v.Object?)
    ensures Extracts(text, Kind(v), Render(v)) <==> Render(v) <= text[Find(text, Kind(v).open)..]
  {
    hide Render, IsValue, Feed;
    WholeTextCloses(v);
  }

  /** A JSON text cut short is not returned at all. */
  lemma CutTextIsNotFound(prefix: string, v: Value, n: nat, found: string)
    requires IsValue(v) && (v.Array? || v.Object?) && Kind(v).open !in prefix && n < |Render(v)|
    ensures Extracts(prefix + Render(v)[..n], Kind(v), found) <==> found == ""
  {
    hide Render, IsValue, Feed;
    var b, s := Kind(v), Render(v);
    var text := prefix + s[..n];
    WholeTextCloses(v);
    if Feed(b, Start, s[..n]) == Closed {
      ClosesOnce(b, s, |s| - 1, n);
      assert false;
    }
    if n == 0 {
      NotThere(text, b.open);
    } else {
      FindSkips(prefix, s[..n], b.open);
    }
    assert n == 0 ==> Feed(b, Start, s[..0]) != Closed;
    assert text[Find(text, b.open)..] == s[..n];
    assert Extracts(text, b, "");
    if Extracts(text, b, found) {
      ExtractsOneText(text, b, found, "");
    }
  }

  lemma {:induction false} NotThere(text: string, c: char)
    requires c !in text
    ensures Find(text, c) == |text|
  {
  }

  /** The hypothesis on the prefix is needed: an earlier opening bracket hides the text behind it. */
  lemma EarlierBracketHides()
    ensures Extracts("{x {}", Braces, "")
    ensures forall found :: Extracts("{x {}", Braces, found) ==> found != Render(Object("", NoMembers))
  {
    var text := "{x {}";
    assert Find(text, '{') == 0;
    assert text[0..] == text;
    assert text[..4] == "{x {" && text[..3] == "{x " && text[..2] == "{x" && text[..1] == "{" && text[..0] == "";
    assert "{x {"[..3] == "{x " && "{x "[..2] == "{x" && "{x"[..1] == "{" && "{"[..0] == "";
    assert Feed(Braces, Start, "{") == Scanning(1, false, false);
    assert Feed(Braces, Start, "{x") == Scanning(1, false, false);
    assert Feed(Braces, Start, "{x ") == Scanning(1, false, false);
    assert Feed(Braces, Start, "{x {") == Scanning(2, false, false);
    assert Feed(Braces, Start, text) == Scanning(1, false, false);
    forall found | Extracts(text, Braces, found)
      ensures found == ""
    {
      ExtractsOneText(text, Braces, found, "");
    }
    assert |Render(Object("", NoMembers))| == 2;
  }
}
